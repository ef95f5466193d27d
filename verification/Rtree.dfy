/** The radix tree of include/nvalloc/internal/rtree.h and src/rtree.c, read through the two-level
    cache that every thread keeps: 48-bit addresses, 4096-byte pages, two levels of 18 bits. */
module Rtrees {
  import opened LeafWords

  const FANOUT := 0x4_0000
  const LEAF_SPAN := 0x4000_0000
  const PAGE := 4096
  const NCACHE := 16
  const NCACHE_L2 := 8
  /** RTREE_LEAFKEY_INVALID: not a multiple of the span of a leaf. */
  const INVALID := 1

  // ---------------------------------------------------------------------------------------
  // Keys
  // ---------------------------------------------------------------------------------------

  /** rtree_leafkey: the low 30 bits cleared. */
  function LeafKey(key: nat): nat {
    key - key % LEAF_SPAN
  }

  /** rtree_cache_direct_map. */
  function Slot(key: nat): (s: nat)
    ensures s < NCACHE
  {
    key / LEAF_SPAN % NCACHE
  }

  /** rtree_subkey at level 0 and at level 1. */
  function Sub0(key: nat): (s: nat)
    ensures s < FANOUT
  {
    key / LEAF_SPAN % FANOUT
  }

  function Sub1(key: nat): (s: nat)
    ensures s < FANOUT
  {
    key / PAGE % FANOUT
  }

  /** The page of a key among the 2^36 that the tree tells apart. */
  function PageOf(key: nat): nat {
    key / PAGE % (FANOUT * FANOUT)
  }

  /** A leaf key determines the slot and the child of the root. */
  lemma LeafKeyDecides(key: nat)
    ensures LeafKey(key) != INVALID && LeafKey(LeafKey(key)) == LeafKey(key)
    ensures Slot(LeafKey(key)) == Slot(key) && Sub0(LeafKey(key)) == Sub0(key)
  {
  }

  /** The two subkeys together are the page, and tell pages apart. */
  lemma SubkeysArePage(key: nat, key': nat)
    ensures Sub0(key) == Sub0(key') && Sub1(key) == Sub1(key') <==> PageOf(key) == PageOf(key')
    ensures 0x4_0000 * Sub0(key) + Sub1(key) == key / 4096 % 0x10_0000_0000 && Slot(key) == Sub0(key) % 16
  {
    Halves(key);
    Halves(key');
    SlotIs(key);
  }

  lemma SlotIs(key: nat)
    ensures Slot(key) == Sub0(key) % NCACHE
  {
    assert FANOUT == NCACHE * 0x4000;
    var q := key / LEAF_SPAN;
    assert q == FANOUT * (q / FANOUT) + q % FANOUT;
    assert q % NCACHE == q % FANOUT % NCACHE;
  }

  lemma Halves(key: nat)
    ensures PageOf(key) == FANOUT * Sub0(key) + Sub1(key)
  {
    var q := key / PAGE;
    assert key / LEAF_SPAN == q / FANOUT;
  }

  // ---------------------------------------------------------------------------------------
  // Tree and contexts
  // ---------------------------------------------------------------------------------------

  type Words = s: seq<bv64> | |s| == FANOUT witness seq(FANOUT, _ => 0)

  /** A leaf node: FANOUT compact elements. */
  class Leaf {
    var elms: Words

    constructor ()
      ensures forall i :: 0 <= i < FANOUT ==> elms[i] == 0
    {
      elms := seq(FANOUT, _ => 0);
    }
  }

  datatype Line = Line(leafkey: nat, leaf: Leaf?)

  /** The address of an element of a leaf. */
  datatype Elm = NoElm | Elm(leaf: Leaf, index: nat)

  /** The children of the root are distinct leaves. */
  ghost predicate RootOk(root: seq<Leaf?>) {
    |root| == FANOUT && forall i, j :: 0 <= i < j < |root| && root[i] != null ==> root[i] != root[j]
  }

  /** The uncached walk. */
  function Walk(root: seq<Leaf?>, key: nat): Elm
    requires |root| == FANOUT
  {
    if root[Sub0(key)] == null then NoElm else Elm(root[Sub0(key)], Sub1(key))
  }

  /** A line of the cache is unused, or names the leaf of its key. */
  ghost predicate LineOk(root: seq<Leaf?>, l: Line)
    requires |root| == FANOUT
  {
    l.leafkey != INVALID ==> l.leafkey == LeafKey(l.leafkey) && l.leaf != null && l.leaf == root[Sub0(l.leafkey)]
  }

  /** No valid leaf key occurs twice. */
  ghost predicate Once(s: seq<Line>) {
    forall i, j :: 0 <= i < j < |s| && s[i].leafkey != INVALID ==> s[i].leafkey != s[j].leafkey
  }

  ghost predicate CacheOk(root: seq<Leaf?>, l1: seq<Line>, l2: seq<Line>) {
    && |root| == FANOUT && |l1| == NCACHE && |l2| == NCACHE_L2
    && (forall l :: l in l1 ==> LineOk(root, l)) && (forall l :: l in l2 ==> LineOk(root, l))
    && (forall i :: 0 <= i < NCACHE && l1[i].leafkey != INVALID ==> Slot(l1[i].leafkey) == i)
    && Once(l1 + l2)
  }

  /** Children of the root are only ever added. */
  ghost predicate Grows(root: seq<Leaf?>, root': seq<Leaf?>) {
    |root'| == |root| && forall i :: 0 <= i < |root| && root[i] != null ==> root'[i] == root[i]
  }

  /** What other threads add to the tree does not invalidate a cache. */
  lemma CacheStays(root: seq<Leaf?>, root': seq<Leaf?>, l1: seq<Line>, l2: seq<Line>)
    requires CacheOk(root, l1, l2) && Grows(root, root')
    ensures CacheOk(root', l1, l2)
  {
    forall l | LineOk(root, l) ensures LineOk(root', l) {
    }
  }

  // ---------------------------------------------------------------------------------------
  // The cache
  // ---------------------------------------------------------------------------------------

  /** A hit at line i of L2: it moves to its slot of L1, and what was there bubbles into L2. */
  function HitL1(l1: seq<Line>, l2: seq<Line>, key: nat, i: nat): seq<Line>
    requires |l1| == NCACHE && i < |l2|
  {
    l1[Slot(key) := l2[i]]
  }

  function HitL2(l1: seq<Line>, l2: seq<Line>, key: nat, i: nat): seq<Line>
    requires |l1| == NCACHE && i < |l2|
  {
    if i > 0 then l2[i := l2[i - 1]][i - 1 := l1[Slot(key)]] else l2[0 := l1[Slot(key)]]
  }

  /** A miss: the last line of L2 is dropped, the slot of L1 moves to the front of L2. */
  function MissL1(l1: seq<Line>, key: nat, leaf: Leaf): seq<Line>
    requires |l1| == NCACHE
  {
    l1[Slot(key) := Line(LeafKey(key), leaf)]
  }

  function MissL2(l1: seq<Line>, l2: seq<Line>, key: nat): seq<Line>
    requires |l1| == NCACHE && |l2| > 0
  {
    [l1[Slot(key)]] + l2[..|l2| - 1]
  }

  predicate NowFirst(l1: seq<Line>, key: nat, leaf: Leaf) {
    |l1| == NCACHE && l1[Slot(key)] == Line(LeafKey(key), leaf)
  }

  lemma HitKeeps(root: seq<Leaf?>, l1: seq<Line>, l2: seq<Line>, key: nat, i: nat)
    requires CacheOk(root, l1, l2) && i < NCACHE_L2 && l2[i].leafkey == LeafKey(key)
    ensures CacheOk(root, HitL1(l1, l2, key, i), HitL2(l1, l2, key, i))
    ensures root[Sub0(key)] != null && NowFirst(HitL1(l1, l2, key, i), key, root[Sub0(key)])
  {
    hide Slot, Sub0, LeafKey, Once;
    LeafKeyDecides(key);
    var l1', l2' := HitL1(l1, l2, key, i), HitL2(l1, l2, key, i);
    assert LineOk(root, l2[i]);
    forall l | l in l1' ensures LineOk(root, l) {
      assert l in l1 || l == l2[i];
    }
    forall l | l in l2' ensures LineOk(root, l) {
      assert l in l2 || l == l1[Slot(key)];
    }
    OnceHit(l1, l2, Slot(key), i);
  }

  lemma OnceHit(l1: seq<Line>, l2: seq<Line>, s: nat, i: nat)
    requires Once(l1 + l2) && s < |l1| && i < |l2|
    ensures Once(l1[s := l2[i]] + (if i > 0 then l2[i := l2[i - 1]][i - 1 := l1[s]] else l2[0 := l1[s]]))
  {
    var a, b := l1 + l2, l1[s := l2[i]] + (if i > 0 then l2[i := l2[i - 1]][i - 1 := l1[s]] else l2[0 := l1[s]]);
    var p, q, n := |l1| + i - 1, |l1| + i, |a|;
    forall j, k | 0 <= j < k < n && b[j].leafkey != INVALID ensures b[j].leafkey != b[k].leafkey {
      var j', k' := Back(j, s, p, q, i), Back(k, s, p, q, i);
      assert b[j] == a[j'] && b[k] == a[k'] && j' != k';
    }
  }

  /** Where a line was before a hit. */
  function Back(j: nat, s: nat, p: int, q: nat, i: nat): int {
    if j == s then q else if j == q then (if i > 0 then p else s) else if j == p && i > 0 then s else j
  }

  lemma MissKeeps(root: seq<Leaf?>, l1: seq<Line>, l2: seq<Line>, key: nat)
    requires CacheOk(root, l1, l2) && root[Sub0(key)] != null
    requires l1[Slot(key)].leafkey != LeafKey(key) && forall i :: 0 <= i < NCACHE_L2 ==> l2[i].leafkey != LeafKey(key)
    ensures CacheOk(root, MissL1(l1, key, root[Sub0(key)]), MissL2(l1, l2, key))
  {
    hide Slot, Sub0, LeafKey, Once;
    LeafKeyDecides(key);
    var line := Line(LeafKey(key), root[Sub0(key)]);
    var l1', l2' := MissL1(l1, key, root[Sub0(key)]), MissL2(l1, l2, key);
    assert LineOk(root, line);
    forall l | l in l1' ensures LineOk(root, l) {
      assert l in l1 || l == line;
    }
    forall l | l in l2' ensures LineOk(root, l) {
      assert l in l2 || l == l1[Slot(key)];
    }
    forall j | 0 <= j < NCACHE && j != Slot(key) ensures l1[j].leafkey != LeafKey(key) {
      assert LeafKey(key) != INVALID;
    }
    OnceMiss(l1, l2, Slot(key), line);
  }

  lemma OnceMiss(l1: seq<Line>, l2: seq<Line>, s: nat, line: Line)
    requires Once(l1 + l2) && s < |l1| && |l2| > 0
    requires (forall j :: 0 <= j < |l1| && j != s ==> l1[j].leafkey != line.leafkey) && forall j :: 0 <= j < |l2| ==> l2[j].leafkey != line.leafkey
    requires l1[s].leafkey != line.leafkey
    ensures Once(l1[s := line] + ([l1[s]] + l2[..|l2| - 1]))
  {
    var a, b := l1 + l2, l1[s := line] + ([l1[s]] + l2[..|l2| - 1]);
    forall j, k | 0 <= j < k < |b| && b[j].leafkey != INVALID ensures b[j].leafkey != b[k].leafkey {
      var j', k' := if j < |l1| then j else if j == |l1| then s else j - 1, if k < |l1| then k else if k == |l1| then s else k - 1;
      assert j != s ==> b[j] == a[j'];
      assert k != s ==> b[k] == a[k'];
      assert a[j'] == (l1 + l2)[j'] && a[k'] == (l1 + l2)[k'];
    }
  }

  // ---------------------------------------------------------------------------------------
  // Lookup
  // ---------------------------------------------------------------------------------------

  /** rtree_ctx_t: every thread has its own. */
  class Ctx {
    const cache: array<Line>
    const l2: array<Line>

    ghost predicate Valid(root: seq<Leaf?>)
      reads cache, l2
    {
      cache != l2 && cache.Length == NCACHE && l2.Length == NCACHE_L2 && CacheOk(root, cache[..], l2[..])
    }

    /** rtree_ctx_data_init. */
    constructor ()
      ensures fresh(cache) && fresh(l2) && forall root :: |root| == FANOUT ==> Valid(root)
    {
      cache := new Line[NCACHE](_ => Line(INVALID, null));
      l2 := new Line[NCACHE_L2](_ => Line(INVALID, null));
    }

    /** Cache replacement after a miss: L2 moves down by one line. */
    method Fill(key: nat, leaf: Leaf)
      requires cache != l2 && cache.Length == NCACHE && l2.Length == NCACHE_L2
      modifies cache, l2
      ensures cache[..] == MissL1(old(cache[..]), key, leaf) && l2[..] == MissL2(old(cache[..]), old(l2[..]), key)
    {
      hide Slot, LeafKey;
      for i := NCACHE_L2 - 1 downto 0
        invariant cache[..] == old(cache[..])
        invariant forall j :: 0 <= j <= i ==> l2[j] == old(l2[j])
        invariant forall j :: i < j < NCACHE_L2 ==> l2[j] == old(l2[j - 1])
      {
        l2[i + 1] := l2[i];
      }
      var slot := Slot(key);
      l2[0] := cache[slot];
      cache[slot] := Line(LeafKey(key), leaf);
    }

    /** A hit at line i of L2. */
    method Promote(key: nat, i: nat)
      requires cache != l2 && cache.Length == NCACHE && i < l2.Length
      modifies cache, l2
      ensures cache[..] == HitL1(old(cache[..]), old(l2[..]), key, i) && l2[..] == HitL2(old(cache[..]), old(l2[..]), key, i)
    {
      hide Slot;
      var slot, line := Slot(key), l2[i];
      if i > 0 {
        l2[i] := l2[i - 1];
        l2[i - 1] := cache[slot];
      } else {
        l2[0] := cache[slot];
      }
      cache[slot] := line;
    }
  }

  class Rtree {
    const root: array<Leaf?>

    ghost predicate Valid()
      reads root
    {
      root.Length == FANOUT && RootOk(root[..])
    }

    constructor ()
      ensures fresh(root) && Valid() && forall k: nat :: Entry(k) == 0
    {
      root := new Leaf?[FANOUT](_ => null);
    }

    /** rtree_leaf_init: the child is created unless it is there. */
    method LeafInit(i: nat) returns (leaf: Leaf)
      requires Valid() && i < FANOUT
      modifies root
      ensures Valid() && leaf == root[i] && root[..] == old(root[..])[i := leaf]
      ensures old(root[i]) != null ==> leaf == old(root[i])
      ensures old(root[i]) == null ==> fresh(leaf) && forall j :: 0 <= j < FANOUT ==> leaf.elms[j] == 0
    {
      if root[i] == null {
        leaf := new Leaf();
        root[i] := leaf;
      } else {
        leaf := root[i];
      }
    }

    /** rtree_leaf_elm_lookup_hard, after both caches have missed. */
    method LookupHard(ctx: Ctx, key: nat, dependent: bool, initMissing: bool) returns (elm: Elm)
      requires Valid() && ctx.Valid(root[..]) && !(dependent && initMissing)
      requires dependent ==> root[Sub0(key)] != null
      requires ctx.cache[Slot(key)].leafkey != LeafKey(key)
      requires forall i :: 0 <= i < NCACHE_L2 ==> ctx.l2[i].leafkey != LeafKey(key)
      modifies root, ctx.cache, ctx.l2
      ensures Valid() && ctx.Valid(root[..]) && elm == Walk(root[..], key)
      ensures elm != NoElm ==> NowFirst(ctx.cache[..], key, elm.leaf)
      ensures root[..] == if initMissing && old(root[Sub0(key)]) == null then old(root[..])[Sub0(key) := root[Sub0(key)]] else old(root[..])
      ensures initMissing ==> elm != NoElm
      ensures initMissing && old(root[Sub0(key)]) == null ==> fresh(elm.leaf) && forall j :: 0 <= j < FANOUT ==> elm.leaf.elms[j] == 0
    {
      hide CacheOk, RootOk, LeafKey, Slot, Sub0, Sub1;
      ghost var root0, l1, l2 := root[..], ctx.cache[..], ctx.l2[..];
      var leaf: Leaf?;
      Shape(root[..], l1, l2);
      if initMissing {
        leaf := LeafInit(Sub0(key));
      } else {
        leaf := root[Sub0(key)];
      }
      if leaf == null {
        return NoElm;
      }
      assert Grows(root0, root[..]);
      CacheStays(root0, root[..], l1, l2);
      MissKeeps(root[..], l1, l2, key);
      ctx.Fill(key, leaf);
      elm := Elm(leaf, Sub1(key));
    }

    /** rtree_leaf_elm_lookup: L1, then L2 line by line, then the tree.  It answers what the uncached
        walk of the tree answers. */
    method Lookup(ctx: Ctx, key: nat, dependent: bool, initMissing: bool) returns (elm: Elm)
      requires Valid() && ctx.Valid(root[..]) && !(dependent && initMissing)
      requires dependent ==> root[Sub0(key)] != null
      modifies root, ctx.cache, ctx.l2
      ensures Valid() && ctx.Valid(root[..]) && elm == Walk(root[..], key)
      ensures elm != NoElm ==> NowFirst(ctx.cache[..], key, elm.leaf)
      ensures root[..] == if initMissing && old(root[Sub0(key)]) == null then old(root[..])[Sub0(key) := root[Sub0(key)]] else old(root[..])
      ensures initMissing ==> elm != NoElm
      ensures initMissing && old(root[Sub0(key)]) == null ==> fresh(elm.leaf) && forall j :: 0 <= j < FANOUT ==> elm.leaf.elms[j] == 0
    {
      hide CacheOk, RootOk, LeafKey, Slot, Sub0, Sub1;
      Shape(root[..], ctx.cache[..], ctx.l2[..]);
      var slot, leafkey := Slot(key), LeafKey(key);
      if ctx.cache[slot].leafkey == leafkey {
        L1Holds(root[..], ctx.cache[..], ctx.l2[..], key);
        return Elm(ctx.cache[slot].leaf, Sub1(key));
      }
      var i := 0;
      while i < NCACHE_L2
        invariant 0 <= i <= NCACHE_L2
        invariant forall j :: 0 <= j < i ==> ctx.l2[j].leafkey != leafkey
      {
        if ctx.l2[i].leafkey == leafkey {
          HitKeeps(root[..], ctx.cache[..], ctx.l2[..], key, i);
          L2Holds(root[..], ctx.cache[..], ctx.l2[..], key, i);
          var leaf := ctx.l2[i].leaf;
          ctx.Promote(key, i);
          return Elm(leaf, Sub1(key));
        }
        i := i + 1;
      }
      elm := LookupHard(ctx, key, dependent, initMissing);
    }

    // The whole tree as a map from pages to words.

    ghost function Leaves(): set<Leaf>
      reads root
    {
      set i | 0 <= i < root.Length && root[i] != null :: root[i]
    }

    /** The word of a key's page; 0 where there is no leaf yet. */
    ghost function Entry(key: nat): bv64
      requires Valid()
      reads root, if root.Length == FANOUT && root[Sub0(key)] != null then {root[Sub0(key)]} else {}
    {
      if root[Sub0(key)] == null then 0 else root[Sub0(key)].elms[Sub1(key)]
    }

    /** The element of a key with rtree_leaf_elm_bits_read; a missing leaf reads as the empty word. */
    method Read(ctx: Ctx, key: nat) returns (bits: bv64)
      requires Valid() && ctx.Valid(root[..])
      modifies ctx.cache, ctx.l2, root
      ensures Valid() && ctx.Valid(root[..]) && root[..] == old(root[..])
      ensures bits == Entry(key)
    {
      hide CacheOk, LeafKey, Slot, Sub0, Sub1;
      var elm := Lookup(ctx, key, false, false);
      bits := if elm == NoElm then 0 else elm.leaf.elms[elm.index];
    }

    /** rtree_write and the writes through extent_rtree_leaf_elms_lookup. */
    method Write(ctx: Ctx, key: nat, extent: bv64, szind: bv64, slab: bool)
      requires Valid() && ctx.Valid(root[..])
      modifies root, ctx.cache, ctx.l2, if root[Sub0(key)] != null then {root[Sub0(key)]} else {}
      ensures Valid() && ctx.Valid(root[..]) && Grows(old(root[..]), root[..])
      ensures forall l :: l in Leaves() ==> l in old(Leaves()) || fresh(l)
      ensures forall k: nat :: Entry(k) == if PageOf(k) == PageOf(key) then Pack(extent, szind, slab) else old(Entry(k))
    {
      hide CacheOk, LeafKey, Slot, Sub0, Sub1, Pack, PageOf;
      var elm := Lookup(ctx, key, false, true);
      elm.leaf.elms := elm.leaf.elms[elm.index := Pack(extent, szind, slab)];
      forall k: nat ensures Entry(k) == if PageOf(k) == PageOf(key) then Pack(extent, szind, slab) else old(Entry(k)) {
        SubkeysArePage(k, key);
      }
    }
  }

  lemma L1Holds(root: seq<Leaf?>, l1: seq<Line>, l2: seq<Line>, key: nat)
    requires CacheOk(root, l1, l2) && l1[Slot(key)].leafkey == LeafKey(key)
    ensures root[Sub0(key)] != null && l1[Slot(key)].leaf == root[Sub0(key)] && NowFirst(l1, key, root[Sub0(key)])
  {
    LeafKeyDecides(key);
    assert LineOk(root, l1[Slot(key)]);
  }

  lemma L2Holds(root: seq<Leaf?>, l1: seq<Line>, l2: seq<Line>, key: nat, i: nat)
    requires CacheOk(root, l1, l2) && i < NCACHE_L2 && l2[i].leafkey == LeafKey(key)
    ensures root[Sub0(key)] != null && l2[i].leaf == root[Sub0(key)]
  {
    LeafKeyDecides(key);
    assert LineOk(root, l2[i]);
  }

  lemma Shape(root: seq<Leaf?>, l1: seq<Line>, l2: seq<Line>)
    requires CacheOk(root, l1, l2)
    ensures |root| == FANOUT && |l1| == NCACHE && |l2| == NCACHE_L2
  {
  }

  // ---------------------------------------------------------------------------------------
  // Histories: several threads, each with its own cache, over one tree
  // ---------------------------------------------------------------------------------------

  datatype Request =
    | Reading(thread: nat, key: nat)
    | Writing(thread: nat, key: nat, extent: bv64, szind: bv64, slab: bool)

  /** The reference: a map from pages to words. */
  type Words36 = map<nat, bv64>

  function WordOf(m: Words36, page: nat): bv64 {
    if page in m then m[page] else 0
  }

  function Next(m: Words36, r: Request): Words36 {
    match r
    case Reading(_, _) => m
    case Writing(_, key, extent, szind, slab) => m[PageOf(key) := Pack(extent, szind, slab)]
  }

  function Reply(m: Words36, r: Request): bv64 {
    match r
    case Reading(_, key) => WordOf(m, PageOf(key))
    case Writing(_, _, _, _, _) => 0
  }

  function Final(m: Words36, rs: seq<Request>): Words36 {
    if rs == [] then m else Next(Final(m, rs[..|rs| - 1]), rs[|rs| - 1])
  }

  function Replies(m: Words36, rs: seq<Request>): seq<bv64> {
    if rs == [] then [] else Replies(m, rs[..|rs| - 1]) + [Reply(Final(m, rs[..|rs| - 1]), rs[|rs| - 1])]
  }

  ghost predicate Represents(tree: Rtree, m: Words36)
    reads tree.root, tree.Leaves()
  {
    tree.Valid() && forall k: nat :: tree.Entry(k) == WordOf(m, PageOf(k))
  }

  ghost predicate Distinct(ctxs: seq<Ctx>) {
    && (forall i, j :: 0 <= i < |ctxs| && 0 <= j < |ctxs| ==> ctxs[i].cache != ctxs[j].l2)
    && (forall i, j :: 0 <= i < j < |ctxs| ==> ctxs[i].cache != ctxs[j].cache && ctxs[i].l2 != ctxs[j].l2)
  }

  ghost predicate AllValid(tree: Rtree, ctxs: seq<Ctx>)
    reads tree.root, set c | c in ctxs :: c.cache, set c | c in ctxs :: c.l2
  {
    forall c :: c in ctxs ==> c.Valid(tree.root[..])
  }

  lemma OthersApart(ctxs: seq<Ctx>, i: nat)
    requires Distinct(ctxs) && i < |ctxs|
    ensures forall c :: c in ctxs && c != ctxs[i] ==> {c.cache, c.l2} !! {ctxs[i].cache, ctxs[i].l2}
  {
    forall c | c in ctxs && c != ctxs[i] ensures {c.cache, c.l2} !! {ctxs[i].cache, ctxs[i].l2} {
      var j :| 0 <= j < |ctxs| && ctxs[j] == c;
    }
  }

  method ServeRead(tree: Rtree, ctxs: seq<Ctx>, i: nat, key: nat, ghost m: Words36) returns (reply: bv64)
    requires Represents(tree, m) && Distinct(ctxs) && AllValid(tree, ctxs) && i < |ctxs|
    modifies tree.root, ctxs[i].cache, ctxs[i].l2
    ensures Represents(tree, m) && AllValid(tree, ctxs) && reply == WordOf(m, PageOf(key)) && tree.Leaves() == old(tree.Leaves())
  {
    hide CacheOk, PageOf, Slot, Sub0, Sub1, RootOk, Distinct;
    OthersApart(ctxs, i);
    reply := tree.Read(ctxs[i], key);
    forall c | c in ctxs ensures c.Valid(tree.root[..]) {
    }
  }

  method ServeWrite(tree: Rtree, ctxs: seq<Ctx>, i: nat, key: nat, extent: bv64, szind: bv64, slab: bool, ghost m: Words36)
    requires Represents(tree, m) && Distinct(ctxs) && AllValid(tree, ctxs) && i < |ctxs|
    modifies tree.root, ctxs[i].cache, ctxs[i].l2, tree.Leaves()
    ensures Represents(tree, m[PageOf(key) := Pack(extent, szind, slab)]) && AllValid(tree, ctxs)
    ensures forall l :: l in tree.Leaves() ==> l in old(tree.Leaves()) || fresh(l)
  {
    hide CacheOk, PageOf, Pack, Slot, Sub0, Sub1, RootOk, Distinct;
    OthersApart(ctxs, i);
    ghost var root0 := tree.root[..];
    tree.Write(ctxs[i], key, extent, szind, slab);
    forall c | c in ctxs ensures c.Valid(tree.root[..]) {
      if c != ctxs[i] {
        CacheStays(root0, tree.root[..], c.cache[..], c.l2[..]);
      }
    }
  }

  method ServeOne(tree: Rtree, ctxs: seq<Ctx>, r: Request, ghost m: Words36) returns (reply: bv64)
    requires Represents(tree, m) && Distinct(ctxs) && AllValid(tree, ctxs) && r.thread < |ctxs|
    modifies tree.root, ctxs[r.thread].cache, ctxs[r.thread].l2, tree.Leaves()
    ensures Represents(tree, Next(m, r)) && AllValid(tree, ctxs) && reply == Reply(m, r)
    ensures forall l :: l in tree.Leaves() ==> l in old(tree.Leaves()) || fresh(l)
  {
    hide Represents, AllValid, Distinct, PageOf, Pack;
    match r {
      case Reading(i, key) =>
        reply := ServeRead(tree, ctxs, i, key, m);
      case Writing(i, key, extent, szind, slab) =>
        ServeWrite(tree, ctxs, i, key, extent, szind, slab, m);
        reply := 0;
    }
  }

  /** Any number of threads and any history of reads and writes: through their caches the threads see one
      map from pages to words. */
  method Serve(tree: Rtree, ctxs: seq<Ctx>, rs: seq<Request>, ghost m: Words36) returns (replies: seq<bv64>)
    requires Represents(tree, m) && Distinct(ctxs) && AllValid(tree, ctxs) && forall r :: r in rs ==> r.thread < |ctxs|
    modifies tree.root, (set c | c in ctxs :: c.cache), (set c | c in ctxs :: c.l2), tree.Leaves()
    ensures Represents(tree, Final(m, rs)) && AllValid(tree, ctxs) && replies == Replies(m, rs)
  {
    hide Represents, Next, Reply;
    replies := [];
    for i := 0 to |rs|
      invariant Represents(tree, Final(m, rs[..i])) && AllValid(tree, ctxs) && replies == Replies(m, rs[..i])
      invariant forall l :: l in tree.Leaves() ==> l in old(tree.Leaves()) || fresh(l)
    {
      assert rs[i] in rs && ctxs[rs[i].thread] in ctxs;
      var reply := ServeOne(tree, ctxs, rs[i], Final(m, rs[..i]));
      replies := replies + [reply];
      assert rs[..i + 1][..i] == rs[..i];
    }
    assert rs[..|rs|] == rs;
  }
}