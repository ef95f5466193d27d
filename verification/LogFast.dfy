/** fast_GC of src/log.c, which unlinks chunks without a set bit: what it always keeps, and exactly
    when the chain it leaves is the old one without these chunks. */
module LogFast {
  import opened LogSpec
  import opened LogCrash
  import opened LogState
  import opened LogDisk
  import opened Log
  import opened LogArena

  /** bitmap_empty. */
  predicate NoBits(v: VChunk) {
    forall i :: 0 <= i < |v.bits| ==> !v.bits[i]
  }

  ghost function Empties(tree: Tree): set<nat> {
    set a | a in tree && NoBits(tree[a])
  }

  lemma EmptiesAre(tree: Tree)
    ensures forall a :: a in tree ==> (a in tree - Empties(tree) <==> exists i :: 0 <= i < |tree[a].bits| && tree[a].bits[i])
  {
  }

  // ---------------------------------------------------------------------------------------
  // The chain afterwards
  // ---------------------------------------------------------------------------------------

  /** The links after the chunks of P, a set closed upwards within the empty chunks, have been
      unlinked from the highest address on. */
  ghost predicate Relinked(ch: Chunks, s: seq<nat>, E: set<nat>, P: set<nat>) {
    forall i :: 0 <= i < |s| ==> s[i] in ch && ch[s[i]].next == LinkOf(s, E, P, i)
  }

  function LinkOf(s: seq<nat>, E: set<nat>, P: set<nat>, i: nat): nat {
    if i + 1 < |s| && s[i + 1] in P then At(s, Jump(s, E, i)) else After(s, i)
  }

  function At(s: seq<nat>, i: nat): nat {
    if i < |s| then s[i] else 0
  }

  /** The position that chunk i points to in the end: past the chunk behind it if that is empty, and
      on while empty chunks follow with rising addresses. */
  function Jump(s: seq<nat>, E: set<nat>, i: nat): nat
    decreases |s| - i
  {
    if i + 1 >= |s| || s[i + 1] !in E then i + 1
    else if i + 2 < |s| && s[i + 2] in E && s[i + 2] > s[i + 1] then Jump(s, E, i + 1)
    else i + 2
  }

  /** The step for chunk a at position i + 1, whose true predecessor is at position i. */
  function Unlinked(ch: Chunks, a: nat, pre: nat): Chunks
    requires a in ch && pre in ch
  {
    var ch1 := ch[a := ch[a].(id := 0)];
    ch1[pre := ch1[pre].(next := ch1[a].next)]
  }

  lemma UnlinkStep(ch: Chunks, s: seq<nat>, E: set<nat>, P: set<nat>, i: nat)
    requires Relinked(ch, s, E, P) && Distinct(s) && i + 1 < |s| && s[i + 1] in E && s[i + 1] !in P
    requires P <= E && forall b :: b in E ==> (b in P <==> b > s[i + 1])
    ensures s[i] in ch && s[i + 1] in ch
    ensures Relinked(Unlinked(ch, s[i + 1], s[i]), s, E, P + {s[i + 1]})
  {
    var a := s[i + 1];
    var ch' := Unlinked(ch, a, s[i]);
    forall j | 0 <= j < |s|
      ensures s[j] in ch'
      ensures ch'[s[j]].next == LinkOf(s, E, P + {a}, j)
    {
      if j == i {
        assert ch'[s[i]].next == ch[a].next;
        assert s[i + 1] == a && (i + 2 < |s| ==> s[i + 2] != a);
        assert ch[a].next == LinkOf(s, E, P, i + 1);
        assert Jump(s, E, i) == if i + 2 < |s| && s[i + 2] in P then Jump(s, E, i + 1) else i + 2;
      } else {
        assert s[j] != s[i];
        assert j + 1 < |s| ==> s[j + 1] != a;
        assert ch'[s[j]].next == ch[s[j]].next;
      }
    }
  }

  /** The chunks of s from position i on that are not in E. */
  function Kept(s: seq<nat>, E: set<nat>, i: nat): seq<nat>
    decreases |s| - i
  {
    if i >= |s| then [] else (if s[i] in E then [] else [s[i]]) + Kept(s, E, i + 1)
  }

  function FirstKept(s: seq<nat>, E: set<nat>, i: nat): nat
    decreases |s| - i
  {
    if i >= |s| || s[i] !in E then i else FirstKept(s, E, i + 1)
  }

  /** No empty chunk is followed by an empty chunk at a lower address. */
  ghost predicate NoDescent(s: seq<nat>, E: set<nat>) {
    forall i :: 0 <= i && i + 1 < |s| && s[i] in E && s[i + 1] in E ==> s[i] < s[i + 1]
  }

  lemma {:induction false} KeptHead(s: seq<nat>, E: set<nat>, i: nat)
    ensures (if Kept(s, E, i) == [] then 0 else Kept(s, E, i)[0]) == At(s, FirstKept(s, E, i))
    decreases |s| - i
  {
    if i < |s| && s[i] in E {
      KeptHead(s, E, i + 1);
    }
  }

  ghost predicate IsWalk(ch: Chunks, k: seq<nat>) {
    forall j :: 0 <= j < |k| ==> k[j] in ch && ch[k[j]].next == After(k, j)
  }

  lemma WalkOfCons(ch: Chunks, a: nat, k: seq<nat>)
    ensures IsWalk(ch, [a] + k) <==> a in ch && ch[a].next == (if k == [] then 0 else k[0]) && IsWalk(ch, k)
  {
    var t := [a] + k;
    assert forall j :: 0 <= j < |k| ==> t[j + 1] == k[j] && After(t, j + 1) == After(k, j);
    if IsWalk(ch, t) {
      assert t[0] == a;
      forall j | 0 <= j < |k| ensures k[j] in ch && ch[k[j]].next == After(k, j) {
        assert t[j + 1] in ch && ch[t[j + 1]].next == After(t, j + 1);
      }
    }
    if a in ch && ch[a].next == (if k == [] then 0 else k[0]) && IsWalk(ch, k) {
      forall j | 0 <= j < |t| ensures t[j] in ch && ch[t[j]].next == After(t, j) {
        if j > 0 {
          assert t[j] == k[j - 1] && After(t, j) == After(k, j - 1);
        }
      }
    }
  }

  /** From position i on, each kept chunk points to the next kept one. */
  ghost predicate PointsRight(ch: Chunks, s: seq<nat>, E: set<nat>, i: nat)
    requires forall j :: 0 <= j < |s| ==> s[j] in ch
  {
    forall j :: i <= j < |s| && s[j] !in E ==> ch[s[j]].next == At(s, FirstKept(s, E, j + 1))
  }

  lemma PointsRightFrom(ch: Chunks, s: seq<nat>, E: set<nat>, i: nat)
    requires i < |s| && forall j :: 0 <= j < |s| ==> s[j] in ch
    ensures PointsRight(ch, s, E, i)
        <==> (s[i] !in E ==> ch[s[i]].next == At(s, FirstKept(s, E, i + 1))) && PointsRight(ch, s, E, i + 1)
  {
    hide FirstKept;
  }

  /** The kept chunks are linked to each other if and only if each points to the next kept one. */
  lemma {:induction false} KeptWalk(ch: Chunks, s: seq<nat>, E: set<nat>, i: nat)
    requires forall j :: 0 <= j < |s| ==> s[j] in ch
    ensures IsWalk(ch, Kept(s, E, i)) <==> PointsRight(ch, s, E, i)
    decreases |s| - i
  {
    hide PointsRight, IsWalk, FirstKept;
    if i < |s| {
      KeptWalk(ch, s, E, i + 1);
      KeptHead(s, E, i + 1);
      PointsRightFrom(ch, s, E, i);
      if s[i] !in E {
        WalkOfCons(ch, s[i], Kept(s, E, i + 1));
      } else {
        assert Kept(s, E, i) == Kept(s, E, i + 1);
      }
    } else {
      NothingLeft(ch, s, E, i);
    }
  }

  lemma NothingLeft(ch: Chunks, s: seq<nat>, E: set<nat>, i: nat)
    requires i >= |s| && forall j :: 0 <= j < |s| ==> s[j] in ch
    ensures PointsRight(ch, s, E, i) && IsWalk(ch, [])
  {
  }

  lemma {:induction false} JumpRises(s: seq<nat>, E: set<nat>, i: nat)
    requires NoDescent(s, E) && i < |s|
    ensures Jump(s, E, i) == FirstKept(s, E, i + 1)
    decreases |s| - i
  {
    if i + 1 < |s| && s[i + 1] in E {
      if i + 2 < |s| && s[i + 2] in E {
        JumpRises(s, E, i + 1);
      }
    }
  }

  /** Where the addresses fall within a run of empty chunks, the jump ends. */
  lemma {:induction false} JumpStops(s: seq<nat>, E: set<nat>, i: nat, k: nat)
    requires i < k && k + 1 < |s| && s[k] > s[k + 1] && forall j :: i < j <= k + 1 ==> s[j] in E
    ensures i < Jump(s, E, i) <= k + 1 && FirstKept(s, E, i + 1) > k + 1
    decreases k - i
  {
    FirstBeyond(s, E, i + 1, k + 1);
    if i + 1 < k {
      JumpStops(s, E, i + 1, k);
    }
  }

  lemma {:induction false} FirstBeyond(s: seq<nat>, E: set<nat>, i: nat, k: nat)
    requires i <= k < |s| && forall j :: i <= j <= k ==> s[j] in E
    ensures FirstKept(s, E, i) > k
    decreases k - i
  {
    if i < k {
      FirstBeyond(s, E, i + 1, k);
    } else {
      FirstAtLeast(s, E, i + 1);
    }
  }

  lemma {:induction false} FirstAtLeast(s: seq<nat>, E: set<nat>, i: nat)
    ensures FirstKept(s, E, i) >= i
    decreases |s| - i
  {
    if i < |s| && s[i] in E {
      FirstAtLeast(s, E, i + 1);
    }
  }

  lemma {:induction false} RunStart(s: seq<nat>, E: set<nat>, k: nat) returns (i: nat)
    requires k < |s| && s[0] !in E && s[k] in E
    ensures i < k && s[i] !in E && forall j :: i < j <= k ==> s[j] in E
  {
    if s[k - 1] !in E {
      i := k - 1;
    } else {
      i := RunStart(s, E, k - 1);
    }
  }

  /** The result of fast_GC is the old chain without the empty chunks if and only if no empty chunk
      is followed by an empty one at a lower address. */
  lemma ChainAfterwards(ch: Chunks, s: seq<nat>, E: set<nat>)
    requires Relinked(ch, s, E, E) && Distinct(s) && |s| > 0 && s[0] !in E && forall i :: 0 <= i < |s| ==> s[i] != 0
    ensures IsChain(ch, Kept(s, E, 0), s[0]) <==> NoDescent(s, E)
  {
    hide Relinked, Kept, FirstKept, Jump;
    KeptAreLinked(ch, s, E);
    KeptWalk(ch, s, E, 0);
    KeptHead(s, E, 0);
    KeptNonzero(s, E, 0);
    FirstIsRoot(s, E);
    if NoDescent(s, E) {
      RisingPointsRight(ch, s, E);
    } else {
      FallingPointsWrong(ch, s, E);
    }
  }

  lemma KeptAreLinked(ch: Chunks, s: seq<nat>, E: set<nat>)
    requires Relinked(ch, s, E, E)
    ensures forall j :: 0 <= j < |s| ==> s[j] in ch
  {
  }

  lemma FirstIsRoot(s: seq<nat>, E: set<nat>)
    requires |s| > 0 && s[0] !in E
    ensures FirstKept(s, E, 0) == 0 && Kept(s, E, 0) != []
  {
  }

  lemma RisingPointsRight(ch: Chunks, s: seq<nat>, E: set<nat>)
    requires Relinked(ch, s, E, E) && NoDescent(s, E) && forall j :: 0 <= j < |s| ==> s[j] in ch
    ensures PointsRight(ch, s, E, 0)
  {
    forall j | 0 <= j < |s| && s[j] !in E ensures ch[s[j]].next == At(s, FirstKept(s, E, j + 1)) {
      JumpRises(s, E, j);
    }
  }

  lemma FallingPointsWrong(ch: Chunks, s: seq<nat>, E: set<nat>)
    requires Relinked(ch, s, E, E) && Distinct(s) && |s| > 0 && s[0] !in E && !NoDescent(s, E)
    requires (forall i :: 0 <= i < |s| ==> s[i] != 0) && forall j :: 0 <= j < |s| ==> s[j] in ch
    ensures !PointsRight(ch, s, E, 0)
    ensures exists i :: 0 <= i < |s| && s[i] !in E && ch[s[i]].next in E
  {
    hide PointsRight, FirstKept, LinkOf, Jump;
    var k :| 0 <= k && k + 1 < |s| && s[k] in E && s[k + 1] in E && s[k] >= s[k + 1];
    var i := RunStart(s, E, k);
    JumpStops(s, E, i, k);
    LinkIsJump(ch, s, E, i);
    assert ch[s[i]].next in E;
    DifferentAt(s, Jump(s, E, i), FirstKept(s, E, i + 1));
    WrongAt(ch, s, E, i);
  }

  lemma LinkIsJump(ch: Chunks, s: seq<nat>, E: set<nat>, i: nat)
    requires Relinked(ch, s, E, E) && i + 1 < |s| && s[i + 1] in E
    ensures s[i] in ch && ch[s[i]].next == At(s, Jump(s, E, i))
  {
    hide Jump;
  }

  lemma WrongAt(ch: Chunks, s: seq<nat>, E: set<nat>, i: nat)
    requires forall j :: 0 <= j < |s| ==> s[j] in ch
    requires i < |s| && s[i] !in E && ch[s[i]].next != At(s, FirstKept(s, E, i + 1))
    ensures !PointsRight(ch, s, E, 0)
  {
    hide FirstKept;
  }

  lemma DifferentAt(s: seq<nat>, i: nat, j: nat)
    requires Distinct(s) && i < |s| && i < j && forall k :: 0 <= k < |s| ==> s[k] != 0
    ensures At(s, i) != At(s, j)
  {
  }

  lemma {:induction false} KeptNonzero(s: seq<nat>, E: set<nat>, i: nat)
    requires forall j :: 0 <= j < |s| ==> s[j] != 0
    ensures forall j :: 0 <= j < |Kept(s, E, i)| ==> Kept(s, E, i)[j] != 0
    decreases |s| - i
  {
    if i < |s| {
      KeptNonzero(s, E, i + 1);
    }
  }

  // ---------------------------------------------------------------------------------------
  // The first loop: unlinking
  // ---------------------------------------------------------------------------------------

  /** The log when fast_GC starts. */
  datatype Fast = Fast(d: Disk, slot: nat, tree: Tree, tail: nat, nextId: nat, s: seq<nat>)

  /** The log is indexed, and its tail has a set bit. */
  ghost predicate FastOk(g: Fast) {
    IndexOk(g.d, g.slot, g.tree, g.tail, g.nextId) && !NoBits(g.tree[g.tail])
  }

  /** A replay finds this log. */
  ghost predicate Chained(g: Fast) {
    Durable(g.d, g.slot, g.tree, g.tail, g.s)
  }

  /** Every empty chunk remembers the chunk before it. */
  ghost predicate KnownPre(tree: Tree, s: seq<nat>, E: set<nat>) {
    forall i :: 0 < i < |s| && s[i] in E ==> s[i] in tree && tree[s[i]].pre == s[i - 1]
  }

  ghost predicate Healthy(g: Fast) {
    Chained(g) && KnownPre(g.tree, g.s, Empties(g.tree))
  }

  /** No empty chunk remembers a chunk of the chain other than the one before it. */
  ghost predicate Harmless(tree: Tree, s: seq<nat>, E: set<nat>) {
    forall i :: 0 < i < |s| && s[i] in E ==> s[i] in tree && (tree[s[i]].pre == s[i - 1] || tree[s[i]].pre !in s)
  }

  lemma KnownIsHarmless(tree: Tree, s: seq<nat>, E: set<nat>)
    requires KnownPre(tree, s, E)
    ensures Harmless(tree, s, E)
  {
  }

  /** Items are as before; the ids of the chunks in P are 0. */
  ghost predicate SameBut(ch: Chunks, ch': Chunks, P: set<nat>) {
    && ch'.Keys == ch.Keys
    && forall a :: a in ch ==> ch'[a].items == ch[a].items && ch'[a].id == if a in P then 0 else ch[a].id
  }

  /** The chunks in P have been unlinked. */
  ghost predicate Unlinking(g: Fast, P: set<nat>, d: Disk) {
    && DiskOk(d) && P <= Empties(g.tree) && SameBut(g.d.vol.chunks, d.vol.chunks, P)
    && d.vol.alt == g.d.vol.alt && d.per.alt == g.d.per.alt && d.vol.roots == g.d.vol.roots && d.per.roots == g.d.per.roots
    && (Chained(g) ==> UnlinkingChain(g, P, d))
  }

  ghost predicate UnlinkingChain(g: Fast, P: set<nat>, d: Disk) {
    && AgreeOn(d.per.chunks, d.vol.chunks, g.s)
    && (KnownPre(g.tree, g.s, Empties(g.tree)) ==> Relinked(d.vol.chunks, g.s, Empties(g.tree), P))
    && (Harmless(g.tree, g.s, Empties(g.tree)) ==> Passing(d.vol.chunks, g.s, P, g.tree.Keys))
    && (PresNotBefore(g.tree, g.s) ==> Trapped(d.vol.chunks, g.s, g.tree, Empties(g.tree)))
  }

  function FastId(d: Disk, a: nat): Disk
    requires a in d.vol.chunks && a in d.per.chunks
  {
    FlushId(StoreId(d, a, 0), a)
  }

  /** What the loop body does to the disk for an empty chunk a. */
  function FastNext(d: Disk, a: nat, pre: nat): Disk
    requires a in d.vol.chunks && a in d.per.chunks && pre in d.vol.chunks && pre in d.per.chunks
  {
    var d2 := FastId(d, a);
    FlushNext(StoreNext(d2, pre, d2.vol.chunks[a].next), pre)
  }

  /** What the proofs use of a chained log. */
  ghost predicate Walked(g: Fast) {
    && g.slot < |g.d.vol.roots| && IsChain(g.d.vol.chunks, g.s, g.d.vol.roots[g.slot]) && Distinct(g.s) && Holding(g.s) == g.tree.Keys
    && AgreeOn(g.d.per.chunks, g.d.vol.chunks, g.s)
  }

  lemma ChainedWalk(g: Fast)
    requires Chained(g) && g.slot < |g.d.vol.roots|
    ensures Walked(g) && |g.s| > 0 && g.s[0] == g.d.vol.roots[g.slot] && forall a :: a in g.s <==> a in {g.s[0]} + g.tree.Keys
  {
    hide Distinct, AgreeOn;
    ChainIsDistinct(g.d.vol.chunks, g.s, g.d.vol.roots[g.slot]);
    InChain(g.s, g.s[0]);
  }

  lemma UnlinkStart(g: Fast)
    requires FastOk(g)
    ensures Unlinking(g, {}, g.d)
  {
    hide Tracked, Chained, Relinked, KnownPre, Harmless, Passing, Trapped, PresCarved;
    if Chained(g) {
      ChainedWalk(g);
      ChainIsRelinked(g.d.vol.chunks, g.s, Empties(g.tree), g.d.vol.roots[g.slot]);
      PassStart(g.d.vol.chunks, g.s, g.tree.Keys, g.d.vol.roots[g.slot]);
      TrapStart(g.d.vol.chunks, g.s, g.tree, Empties(g.tree), g.d.vol.roots[g.slot]);
    }
  }

  lemma ChainIsRelinked(ch: Chunks, s: seq<nat>, E: set<nat>, root: nat)
    requires IsChain(ch, s, root)
    ensures Relinked(ch, s, E, {})
  {
  }

  lemma UnlinkOne(g: Fast, P: set<nat>, d: Disk, a: nat)
    requires FastOk(g) && Unlinking(g, P, d) && a in Empties(g.tree) && a !in P
    requires forall b :: b in Empties(g.tree) ==> (b in P <==> b > a)
    ensures var pre := g.tree[a].pre;
            && a in d.vol.chunks && a in d.per.chunks && pre in d.vol.chunks && pre in d.per.chunks
            && Unlinking(g, P + {a}, FastNext(d, a, pre))
  {
    hide Tracked, Chained, Relinked, NoBits, KnownPre, Harmless, UnlinkingChain, SameBut;
    var pre := g.tree[a].pre;
    IndexShape(g.d, g.slot, g.tree, g.tail, g.nextId);
    SameButKeys(g.d.vol.chunks, d.vol.chunks, P);
    SameButMore(g.d.vol.chunks, d, P, a, pre);
    if Chained(g) {
      UnlinkChained(g, P, d, a, pre);
    }
  }

  lemma SameButKeys(ch: Chunks, ch': Chunks, P: set<nat>)
    requires SameBut(ch, ch', P)
    ensures ch'.Keys == ch.Keys
  {
  }

  lemma SameButMore(ch: Chunks, d: Disk, P: set<nat>, a: nat, pre: nat)
    requires DiskOk(d) && SameBut(ch, d.vol.chunks, P) && a in ch && pre in ch
    ensures a in d.vol.chunks && a in d.per.chunks && pre in d.vol.chunks && pre in d.per.chunks
    ensures var d' := FastNext(d, a, pre);
            && DiskOk(d') && SameBut(ch, d'.vol.chunks, P + {a})
            && d'.vol.alt == d.vol.alt && d'.per.alt == d.per.alt && d'.vol.roots == d.vol.roots && d'.per.roots == d.per.roots
  {
  }

  lemma UnlinkChained(g: Fast, P: set<nat>, d: Disk, a: nat, pre: nat)
    requires Chained(g) && g.slot < |g.d.vol.roots| && UnlinkingChain(g, P, d)
    requires P <= Empties(g.tree) && a in Empties(g.tree) && a !in P && pre == g.tree[a].pre
    requires forall b :: b in Empties(g.tree) ==> (b in P <==> b > a)
    requires a in d.vol.chunks && a in d.per.chunks && pre in d.vol.chunks && pre in d.per.chunks
    ensures UnlinkingChain(g, P + {a}, FastNext(d, a, pre))
  {
    hide Chained, Relinked, NoBits, KnownPre, Harmless, PresNotBefore, Passing, Trapped, AgreeOn, IsChain, Distinct, Unlinked;
    ChainedWalk(g);
    FastUnlinks(d, a, pre);
    FastAgrees(d, g.s, a, pre);
    var ch, E := d.vol.chunks, Empties(g.tree);
    if KnownPre(g.tree, g.s, E) {
      var i := Position(g.tree, g.s, E, a);
      UnlinkStep(ch, g.s, E, P, i);
    }
    if Harmless(g.tree, g.s, E) {
      PassOne(ch, g.tree, g.s, E, P, a);
    }
    if PresNotBefore(g.tree, g.s) {
      TrapOne(ch, g.tree, g.s, E, a);
    }
  }

  lemma FastUnlinks(d: Disk, a: nat, pre: nat)
    requires a in d.vol.chunks && a in d.per.chunks && pre in d.vol.chunks && pre in d.per.chunks
    ensures FastNext(d, a, pre).vol.chunks == Unlinked(d.vol.chunks, a, pre)
  {
  }

  lemma Position(tree: Tree, s: seq<nat>, E: set<nat>, a: nat) returns (i: nat)
    requires KnownPre(tree, s, E) && a in E && a in Holding(s)
    ensures i + 1 < |s| && s[i + 1] == a && a in tree && s[i] == tree[a].pre && a in s && s[i] in s
  {
    var j :| 0 < j < |s| && s[j] == a;
    i := j - 1;
  }

  lemma FastAgrees(d: Disk, s: seq<nat>, a: nat, pre: nat)
    requires AgreeOn(d.per.chunks, d.vol.chunks, s) && a in s
    requires a in d.vol.chunks && a in d.per.chunks && pre in d.vol.chunks && pre in d.per.chunks
    ensures AgreeOn(FastNext(d, a, pre).per.chunks, FastNext(d, a, pre).vol.chunks, s)
  {
  }

  // ---------------------------------------------------------------------------------------
  // Unlinking with stale predecessors
  // ---------------------------------------------------------------------------------------

  /** Each chunk before one that has not been unlinked points to it. */
  ghost predicate Pointed(ch: Chunks, s: seq<nat>, P: set<nat>) {
    forall i :: 0 <= i && i + 1 < |s| && s[i + 1] !in P ==> s[i] in ch && ch[s[i]].next == s[i + 1]
  }

  /** t is a walk through all chunks that have not been unlinked, and perhaps some that have. */
  ghost predicate Passes(ch: Chunks, t: seq<nat>, root: nat, P: set<nat>, keys: set<nat>) {
    IsChain(ch, t, root) && keys - P <= Holding(t) <= keys
  }

  ghost predicate Passing(ch: Chunks, s: seq<nat>, P: set<nat>, keys: set<nat>) {
    |s| > 0 && Pointed(ch, s, P) && exists t :: Passes(ch, t, s[0], P, keys)
  }

  lemma PassStart(ch: Chunks, s: seq<nat>, keys: set<nat>, root: nat)
    requires IsChain(ch, s, root) && Holding(s) == keys
    ensures Passing(ch, s, {}, keys)
  {
    assert Passes(ch, s, root, {}, keys);
  }

  lemma PassOne(ch: Chunks, tree: Tree, s: seq<nat>, E: set<nat>, P: set<nat>, a: nat)
    requires Passing(ch, s, P, tree.Keys) && Distinct(s) && Harmless(tree, s, E)
    requires Holding(s) == tree.Keys && a in E && a in tree && a !in P && a in ch && tree[a].pre in ch
    ensures Passing(Unlinked(ch, a, tree[a].pre), s, P + {a}, tree.Keys)
  {
    hide Unlinked;
    var q :| 0 < q < |s| && s[q] == a;
    var t :| Passes(ch, t, s[0], P, tree.Keys);
    PointOne(ch, s, P, q, tree[a].pre);
    InChain(s, s[0]);
    InChain(t, s[0]);
    var t' := PassTurn(ch, t, s[0], P, tree.Keys, a, tree[a].pre);
  }

  lemma PointOne(ch: Chunks, s: seq<nat>, P: set<nat>, q: nat, pre: nat)
    requires Pointed(ch, s, P) && Distinct(s) && 0 < q < |s| && s[q] !in P && s[q] in ch && pre in ch && (pre == s[q - 1] || pre !in s)
    ensures ch[s[q - 1]].next == s[q] && Pointed(Unlinked(ch, s[q], pre), s, P + {s[q]})
  {
  }

  /** The walk after one more chunk has been unlinked. */
  lemma PassTurn(ch: Chunks, t: seq<nat>, root: nat, P: set<nat>, keys: set<nat>, a: nat, pre: nat) returns (t': seq<nat>)
    requires Passes(ch, t, root, P, keys) && a in keys && a !in P && a in ch && pre in ch
    requires pre in t ==> ch[pre].next == a
    ensures Passes(Unlinked(ch, a, pre), t', root, P + {a}, keys)
    ensures (forall b :: b in t' ==> b in t) && (pre !in t ==> t' == t)
  {
    hide Unlinked;
    ChainIsDistinct(ch, t, root);
    if pre in t {
      var i :| 0 <= i < |t| && t[i] == pre;
      assert ch[t[i]].next == After(t, i);
      assert a in keys - P && a in Holding(t);
      var j :| 0 < j < |t| && t[j] == a;
      assert a != 0 && t[i + 1] == a;
      UnlinkedIsChain(ch, t, root, i);
      t' := t[..i + 1] + t[i + 2..];
      DroppedHolding(t, i);
    } else {
      t' := t;
      SameWalk(ch, t, root, a, pre);
    }
  }

  lemma DroppedHolding(t: seq<nat>, i: nat)
    requires Distinct(t) && i + 1 < |t|
    ensures var t' := t[..i + 1] + t[i + 2..]; Holding(t') == Holding(t) - {t[i + 1]} && forall b :: b in t' ==> b in t
  {
    var t' := t[..i + 1] + t[i + 2..];
    forall b | b in Holding(t) - {t[i + 1]} ensures b in Holding(t') {
      var k :| 0 < k < |t| && t[k] == b;
      assert t'[if k <= i then k else k - 1] == b;
    }
    forall b | b in Holding(t') ensures b in Holding(t) - {t[i + 1]} {
      var k :| 0 < k < |t'| && t'[k] == b;
      assert t[if k <= i then k else k + 1] == b;
    }
  }

  lemma SameWalk(ch: Chunks, t: seq<nat>, root: nat, a: nat, pre: nat)
    requires IsChain(ch, t, root) && a in ch && pre in ch && pre !in t
    ensures IsChain(Unlinked(ch, a, pre), t, root)
  {
  }

  /** From the chunks before position p, no link leads further than to p. */
  ghost predicate Stuck(ch: Chunks, s: seq<nat>, p: nat) {
    p < |s| && forall i :: 0 <= i < p ==> s[i] in ch && ch[s[i]].next in s[..p + 1]
  }

  ghost predicate Trapped(ch: Chunks, s: seq<nat>, tree: Tree, E: set<nat>) {
    forall p :: 0 < p < |s| && s[p] in E && s[p] in tree && tree[s[p]].pre != s[p - 1] ==> Stuck(ch, s, p)
  }

  lemma TrapStart(ch: Chunks, s: seq<nat>, tree: Tree, E: set<nat>, root: nat)
    requires IsChain(ch, s, root)
    ensures Trapped(ch, s, tree, E)
  {
    forall p | 0 < p < |s| && s[p] in E && s[p] in tree && tree[s[p]].pre != s[p - 1] ensures Stuck(ch, s, p) {
      forall i | 0 <= i < p ensures s[i] in ch && ch[s[i]].next in s[..p + 1] {
        assert ch[s[i]].next == s[i + 1] && s[..p + 1][i + 1] == s[i + 1];
      }
    }
  }

  lemma TrapOne(ch: Chunks, tree: Tree, s: seq<nat>, E: set<nat>, a: nat)
    requires Trapped(ch, s, tree, E) && Distinct(s) && PresNotBefore(tree, s)
    requires Holding(s) == tree.Keys && a in tree && a in ch && tree[a].pre in ch
    ensures Trapped(Unlinked(ch, a, tree[a].pre), s, tree, E)
  {
    hide Stuck, Unlinked;
    var q :| 0 < q < |s| && s[q] == a;
    forall p | 0 < p < |s| && s[p] in E && s[p] in tree && tree[s[p]].pre != s[p - 1]
      ensures Stuck(Unlinked(ch, a, tree[a].pre), s, p)
    {
      StuckOne(ch, tree, s, p, q);
    }
  }

  lemma StuckOne(ch: Chunks, tree: Tree, s: seq<nat>, p: nat, q: nat)
    requires Stuck(ch, s, p) && Distinct(s) && PresNotBefore(tree, s) && 0 < p < |s| && 0 < q < |s|
    requires s[p] in tree && tree[s[p]].pre != s[p - 1] && s[q] in tree && s[q] in ch && tree[s[q]].pre in ch
    ensures Stuck(Unlinked(ch, s[q], tree[s[q]].pre), s, p)
  {
    var pre := tree[s[q]].pre;
    var ch' := Unlinked(ch, s[q], pre);
    forall i | 0 <= i < p ensures s[i] in ch' && ch'[s[i]].next in s[..p + 1] {
      if s[i] == pre {
        BeforeStuck(tree, s, p, q, i);
        assert ch'[s[i]].next == ch[s[q]].next;
      } else {
        assert ch'[s[i]].next == ch[s[i]].next;
      }
    }
  }

  /** Only chunks ahead of p write to chunks ahead of p. */
  lemma BeforeStuck(tree: Tree, s: seq<nat>, p: nat, q: nat, i: nat)
    requires PresNotBefore(tree, s) && 0 < p < |s| && 0 < q < |s| && s[p] in tree && s[q] in tree
    requires tree[s[p]].pre != s[p - 1] && i < p && tree[s[q]].pre == s[i]
    ensures q < p
  {
    PrefixHolds(s, q - 1);
  }

  lemma PrefixHolds(s: seq<nat>, n: nat)
    requires n <= |s|
    ensures forall i :: 0 <= i < n ==> s[i] in s[..n]
  {
    forall i | 0 <= i < n ensures s[i] in s[..n] {
      assert s[..n][i] == s[i];
    }
  }

  /** Every walk from the root that ends passes p. */
  lemma StuckWalkPasses(ch: Chunks, s: seq<nat>, p: nat, t: seq<nat>)
    requires Stuck(ch, s, p) && 0 < p && (forall i :: 0 <= i < |s| ==> s[i] != 0) && IsChain(ch, t, s[0])
    ensures s[p] in t
  {
    StuckGoesOn(ch, s, p);
    assert ch[t[|t| - 1]].next == 0;
    if s[p] !in t {
      StaysAhead(ch, s, p, t, |t| - 1);
    }
  }

  lemma StuckGoesOn(ch: Chunks, s: seq<nat>, p: nat)
    requires Stuck(ch, s, p) && forall i :: 0 <= i < |s| ==> s[i] != 0
    ensures forall i :: 0 <= i < p ==> s[i] in ch && ch[s[i]].next != 0
  {
  }

  lemma {:induction false} StaysAhead(ch: Chunks, s: seq<nat>, p: nat, t: seq<nat>, j: nat)
    requires Stuck(ch, s, p) && 0 < p && IsChain(ch, t, s[0]) && s[p] !in t && j < |t|
    ensures exists i :: 0 <= i < p && s[i] == t[j]
  {
    hide Stuck;
    StuckIn(ch, s, p);
    if j > 0 {
      StaysAhead(ch, s, p, t, j - 1);
      var i :| 0 <= i < p && s[i] == t[j - 1];
      var k := NextAhead(ch, s, p, i);
      assert ch[t[j - 1]].next == t[j];
      assert t[j] in t;
      assert k != p && s[k] == t[j];
    }
  }

  lemma StuckIn(ch: Chunks, s: seq<nat>, p: nat)
    requires Stuck(ch, s, p)
    ensures p < |s|
  {
  }

  lemma NextAhead(ch: Chunks, s: seq<nat>, p: nat, i: nat) returns (k: nat)
    requires Stuck(ch, s, p) && i < p
    ensures k <= p && s[i] in ch && ch[s[i]].next == s[k]
  {
    var a := ch[s[i]].next;
    assert a in s[..p + 1];
    k :| 0 <= k < |s[..p + 1]| && s[..p + 1][k] == a;
  }

  // ---------------------------------------------------------------------------------------
  // The collector
  // ---------------------------------------------------------------------------------------

  function Zeroed(tree: Tree, P: set<nat>): Tree {
    map a | a in tree :: if a in P then tree[a].(id := 0) else tree[a]
  }

  /** The empty chunks outside `rest` have been unlinked, from the highest address on. */
  ghost predicate Sweeping(g: Fast, rest: set<nat>, order: seq<nat>, tree: Tree, d: Disk) {
    && rest <= g.tree.Keys && (forall a, b :: a in g.tree && a !in rest && b in rest ==> b < a)
    && IsDescending(order) && Members(order) == Empties(g.tree) - rest
    && tree == Zeroed(g.tree, Members(order)) && Unlinking(g, Members(order), d)
  }

  lemma SweepStart(g: Fast)
    requires FastOk(g)
    ensures Sweeping(g, g.tree.Keys, [], g.tree, g.d)
  {
    hide FastOk, Unlinking, NoBits;
    UnlinkStart(g);
    assert Members([]) == {};
    assert Empties(g.tree) - g.tree.Keys == {};
    assert Zeroed(g.tree, {}) == g.tree;
  }

  lemma SweepPast(g: Fast, rest: set<nat>, order: seq<nat>, tree: Tree, d: Disk, a: nat)
    requires Sweeping(g, rest, order, tree, d) && a in rest && IsLargest(rest, a) && a !in Empties(g.tree)
    ensures Sweeping(g, rest - {a}, order, tree, d)
  {
    hide Unlinking;
    assert Empties(g.tree) - (rest - {a}) == Empties(g.tree) - rest;
  }

  lemma SweepOne(g: Fast, rest: set<nat>, order: seq<nat>, tree: Tree, d: Disk, a: nat)
    requires FastOk(g) && Sweeping(g, rest, order, tree, d) && a in rest && IsLargest(rest, a) && a in Empties(g.tree)
    ensures a in tree && tree[a].pre == g.tree[a].pre
    ensures var pre := g.tree[a].pre;
            && a in d.vol.chunks && a in d.per.chunks && pre in d.vol.chunks && pre in d.per.chunks
            && Sweeping(g, rest - {a}, order + [a], tree[a := tree[a].(id := 0)], FastNext(d, a, pre))
  {
    hide FastOk, Unlinking, NoBits;
    forall b | b in order ensures a < b {
      assert b in Members(order);
    }
    DescendsTo(order, a);
    UnlinkOne(g, Members(order), d, a);
    assert Empties(g.tree) - (rest - {a}) == Empties(g.tree) - rest + {a};
    var tree' := tree[a := tree[a].(id := 0)];
    assert tree' == Zeroed(g.tree, Members(order) + {a});
  }

  /** Whether bitmap_empty holds says whether the chunk is one to unlink. */
  lemma SweepBits(g: Fast, rest: set<nat>, order: seq<nat>, tree: Tree, d: Disk, a: nat)
    requires Sweeping(g, rest, order, tree, d) && a in rest
    ensures a in tree && (NoBits(tree[a]) <==> a in Empties(g.tree))
  {
    hide Unlinking;
  }

  /** A crash at these moments leaves the live set as it was, unless an empty chunk remembers a chunk
      of the chain other than the one before it. */
  ghost predicate SafeTurns(g: Fast, ms: seq<Disk>) {
    Chained(g) && Harmless(g.tree, g.s, Empties(g.tree)) ==> AllRecover(ms, LiveOf(g.d, g.tree), LiveOf(g.d, g.tree))
  }

  lemma NoTurns(g: Fast)
    ensures SafeTurns(g, [])
  {
  }

  lemma SafeTurn(g: Fast, rest: set<nat>, order: seq<nat>, tree: Tree, d: Disk, a: nat, ms: seq<Disk>)
    requires FastOk(g) && Sweeping(g, rest, order, tree, d) && a in rest && IsLargest(rest, a) && a in Empties(g.tree)
    requires SafeTurns(g, ms)
    ensures a in g.tree && var pre := g.tree[a].pre;
            && a in d.vol.chunks && a in d.per.chunks && pre in d.vol.chunks && pre in d.per.chunks
            && SafeTurns(g, ms + Turn(d, a, pre))
  {
    hide FastOk, Unlinking, NoBits, Turn, Chained, Harmless, Recovers;
    assert forall b :: b in order <==> b in Members(order);
    TurnMoments(g, Members(order), d, a);
  }

  /** The disk after the chunks of `order` have been unlinked one after the other. */
  ghost function Links(d: Disk, tree: Tree, order: seq<nat>): Disk {
    if order == [] then d
    else
      var d', a := Links(d, tree, order[..|order| - 1]), order[|order| - 1];
      if a in tree && {a, tree[a].pre} <= d'.vol.chunks.Keys && {a, tree[a].pre} <= d'.per.chunks.Keys then FastNext(d', a, tree[a].pre) else d'
  }

  lemma LinksMore(d: Disk, tree: Tree, order: seq<nat>, a: nat)
    requires a in tree
    requires var d' := Links(d, tree, order); {a, tree[a].pre} <= d'.vol.chunks.Keys && {a, tree[a].pre} <= d'.per.chunks.Keys
    ensures Links(d, tree, order + [a]) == FastNext(Links(d, tree, order), a, tree[a].pre)
  {
    assert (order + [a])[..|order|] == order;
  }

  lemma LinksNone(d: Disk, tree: Tree)
    ensures Links(d, tree, []) == d
  {
  }

  /** fast_GC, the loop over the tree. */
  method Sweep(log: VLog, ghost g: Fast) returns (list: seq<nat>, ghost ms: seq<Disk>)
    requires FastOk(g) && g.d == log.file.disk && g.tree == log.tree
    modifies log`tree, log.file`disk, log.file`moments
    ensures Sweeping(g, {}, list, log.tree, log.file.disk)
    ensures log.file.moments == old(log.file.moments) + ms && SafeTurns(g, ms) && log.file.disk == Links(g.d, g.tree, list)
  {
    hide FastOk, Sweeping, NoBits, IsLargest, Empties, SafeTurns, Links;
    LinksNone(g.d, g.tree);
    list, ms := [], [];
    NoTurns(g);
    SweepStart(g);
    var rest := log.tree.Keys;
    while rest != {}
      invariant Sweeping(g, rest, list, log.tree, log.file.disk)
      invariant log.file.moments == old(log.file.moments) + ms && SafeTurns(g, ms) && log.file.disk == Links(g.d, g.tree, list)
      decreases |rest|
    {
      LargestExists(rest);
      var a :| a in rest && IsLargest(rest, a);
      SweepBits(g, rest, list, log.tree, log.file.disk, a);
      if NoBits(log.tree[a]) {
        SweepOne(g, rest, list, log.tree, log.file.disk, a);
        SafeTurn(g, rest, list, log.tree, log.file.disk, a, ms);
        LinksMore(g.d, g.tree, list, a);
        ms := ms + Turn(log.file.disk, a, g.tree[a].pre);
        log.tree := log.tree[a := log.tree[a].(id := 0)];
        log.file.Do(StoreId(log.file.disk, a, 0));
        log.file.Do(FlushId(log.file.disk, a));
        var pre := log.tree[a].pre;
        log.file.Do(StoreNext(log.file.disk, pre, log.file.disk.vol.chunks[a].next));
        log.file.Do(FlushNext(log.file.disk, pre));
        list := list + [a];
      } else {
        SweepPast(g, rest, list, log.tree, log.file.disk, a);
      }
      rest := rest - {a};
    }
  }

  /** fast_GC, the loop over the list of empty chunks. */
  method Retire(log: VLog, list: seq<nat>)
    requires NoDuplicates(list) && Members(list) <= log.tree.Keys
    modifies log`tree, log.file`free
    ensures log.tree == old(log.tree) - Members(list) && log.file.free == old(log.file.free) + list
  {
    ghost var tree0 := log.tree;
    assert Members(list[..0]) == {};
    for i := 0 to |list|
      invariant log.tree == tree0 - Members(list[..i]) && log.file.free == old(log.file.free) + list[..i]
    {
      assert list[..i + 1] == list[..i] + [list[i]];
      assert Members(list[..i + 1]) == Members(list[..i]) + {list[i]};
      log.tree := log.tree - {list[i]};
      log.file.free := log.file.free + [list[i]];
    }
    assert list[..|list|] == list;
  }

  /** Whether fast_GC leaves the persistent chain right: every empty chunk is linked from the chunk that
      it remembers, which belongs to the log, and no empty chunk is followed by an empty one at a lower
      address. */
  predicate FastSafe(ch: Chunks, tree: Tree, root: nat) {
    forall a :: a in tree && NoBits(tree[a]) ==> LinkedFrom(ch, tree, root, a) && NextRises(ch, tree, a)
  }

  predicate LinkedFrom(ch: Chunks, tree: Tree, root: nat, a: nat)
    requires a in tree
  {
    var pre := tree[a].pre;
    (pre == root || pre in tree) && pre in ch && ch[pre].next == a
  }

  predicate NextRises(ch: Chunks, tree: Tree, a: nat) {
    a in ch && (ch[a].next in tree && NoBits(tree[ch[a].next]) ==> a < ch[a].next)
  }

  /** fast_GC.  In every case the index stays right, nothing live is lost from it, and exactly the
      chunks without a set bit move to the free list, from the highest address on.  If a replay found
      the log before, one finds it afterwards if and only if FastSafe held.  A crash on the way leaves
      the live set as it was if no empty chunk remembers a chunk of the chain other than the one before
      it, whether addresses rise or not. */
  method FastGc(log: VLog) returns (ghost ms: seq<Disk>)
    requires log.Valid() && !NoBits(log.tree[log.tail])
    modifies log, log.file
    ensures log.file.moments == old(log.file.moments) + ms
    ensures old(log.IsDurable()) && Harmless(old(log.tree), old(log.chain), old(Empties(log.tree))) ==>
              AllRecover(ms, old(log.Live()), old(log.Live()))
    ensures log.Valid() && log.nextId == old(log.nextId) && log.Live() == old(log.Live()) && log.tree == old(log.tree) - old(Empties(log.tree))
    ensures forall a :: a in old(log.tree) ==>
              (a in log.tree <==> exists i :: 0 <= i < |old(log.tree)[a].bits| && old(log.tree)[a].bits[i])
    ensures HeldAlike(old(log.file.disk), log.file.disk, old(log.tree), log.tree)
    ensures Collected(old(log.Records()), log.Records())
    ensures Unlinks(old(log.file.disk), old(log.tree), log.file.disk)
    ensures old(log.IsDurable()) ==>
              ((exists s :: Durable(log.file.disk, log.slot, log.tree, log.tail, s))
               <==> old(FastSafe(log.file.disk.vol.chunks, log.tree, log.Root())))
    ensures old(log.IsDurable() && FastSafe(log.file.disk.vol.chunks, log.tree, log.Root())) ==> log.IsDurable()
    ensures old(log.IsDurable() && log.TruePre()) ==> (log.TruePre() <==> old(Empties(log.tree)) == {})
  {
    hide FastOk, Sweeping, NoBits, Empties, IndexOk, LiveOf, Space, Durable, TruePredecessors, PresNotBefore, FastSafe, Harmless, HeldAlike, Kept, AllRecover, Collected, Unlinks, Links;
    ghost var b := log.Records();
    ghost var g := Fast(log.file.disk, log.slot, log.tree, log.tail, log.nextId, log.chain);
    StartIsOk(g);
    EmptiesAre(g.tree);
    var list;
    list, ms := Sweep(log, g);
    SweepEnd(g, list, log.tree, log.file.disk);
    FastEnd(g, list, log.tree - Members(list), log.file.disk, log.file.base, log.file.used, log.file.free);
    Retire(log, list);
    log.chain := Kept(log.chain, Empties(g.tree), 0);
    CollectedBy(b, log.Records(), list);
    UnlinksBy(g.d, g.tree, log.file.disk, list);
  }

  /** The records after fast_GC: the empty chunks have left the tree for the free list, from the highest
      address on. */
  ghost predicate Collected(b: Book, b': Book) {
    var E := Empties(b.tree);
    && b' == Book(b.tree - E, b.tail, b.nextId, Kept(b.chain, E, 0), b.used, b'.free)
    && exists order :: IsDescending(order) && Members(order) == E && b'.free == b.free + order
  }

  /** The disk after fast_GC: the empty chunks unlinked from the highest address on. */
  ghost predicate Unlinks(d: Disk, tree: Tree, d': Disk) {
    exists order :: IsDescending(order) && Members(order) == Empties(tree) && d' == Links(d, tree, order)
  }

  lemma UnlinksBy(d: Disk, tree: Tree, d': Disk, order: seq<nat>)
    requires d' == Links(d, tree, order) && IsDescending(order) && Members(order) == Empties(tree)
    ensures Unlinks(d, tree, d')
  {
  }

  lemma CollectedBy(b: Book, b': Book, order: seq<nat>)
    requires b' == Book(b.tree - Empties(b.tree), b.tail, b.nextId, Kept(b.chain, Empties(b.tree), 0), b.used, b.free + order)
    requires IsDescending(order) && Members(order) == Empties(b.tree)
    ensures Collected(b, b')
  {
  }

  lemma StartIsOk(g: Fast)
    requires IndexOk(g.d, g.slot, g.tree, g.tail, g.nextId) && (g.tail in g.tree ==> !NoBits(g.tree[g.tail]))
    ensures FastOk(g)
  {
  }

  /** The same items are live at the same addresses. */
  ghost predicate HeldAlike(d: Disk, d': Disk, tree: Tree, tree': Tree) {
    forall item, x :: Holds(d, tree, item, x) <==> Holds(d', tree', item, x)
  }

  lemma SweepEnd(g: Fast, order: seq<nat>, tree: Tree, d: Disk)
    requires Sweeping(g, {}, order, tree, d)
    ensures IsDescending(order) && Members(order) == Empties(g.tree) && NoDuplicates(order) && Members(order) <= tree.Keys
    ensures tree - Members(order) == g.tree - Empties(g.tree) && Unlinking(g, Empties(g.tree), d)
  {
    hide Unlinking, NoBits;
    assert Empties(g.tree) - {} == Empties(g.tree);
    assert tree.Keys == g.tree.Keys;
    assert tree - Members(order) == g.tree - Empties(g.tree);
  }

  lemma FastEnd(g: Fast, order: seq<nat>, tree: Tree, d: Disk, base: nat, used: nat, free: seq<nat>)
    requires FastOk(g) && Unlinking(g, Empties(g.tree), d) && tree == g.tree - Empties(g.tree)
    requires Members(order) == Empties(g.tree) && NoDuplicates(order)
    requires Space(g.d, base, used, free, LogChunks(g.d, g.slot, g.tree))
    ensures IndexOk(d, g.slot, tree, g.tail, g.nextId) && LiveOf(d, tree) == LiveOf(g.d, g.tree)
    ensures HeldAlike(g.d, d, g.tree, tree)
    ensures Space(d, base, used, free + order, LogChunks(d, g.slot, tree))
    ensures g.slot < |g.d.vol.roots| && (Chained(g) ==> ChainEnd(g, tree, d))
  {
    hide FastOk, Unlinking, Chained, Durable, IndexOk, LiveOf, HeldAlike, Space, ChainEnd, Empties;
    EndIndex(g, tree, d);
    EndSpace(g, order, tree, d, base, used, free);
    SlotOfFast(g);
    if Chained(g) {
      EndChain(g, tree, d);
    }
  }

  lemma SlotOfFast(g: Fast)
    requires FastOk(g)
    ensures g.slot < |g.d.vol.roots|
  {
  }

  /** What becomes of a log that a replay finds. */
  ghost predicate ChainEnd(g: Fast, tree: Tree, d: Disk)
    requires g.slot < |g.d.vol.roots|
  {
    var k, safe := Kept(g.s, Empties(g.tree), 0), FastSafe(g.d.vol.chunks, g.tree, g.d.vol.roots[g.slot]);
    && (PresNotBefore(g.tree, g.s) ==> ((exists s :: Durable(d, g.slot, tree, g.tail, s)) <==> safe))
    && (safe ==> Durable(d, g.slot, tree, g.tail, k))
    && (PresNotBefore(g.tree, g.s) ==> PresNotBefore(tree, k))
    && (TruePredecessors(g.tree, g.s) ==> (TruePredecessors(tree, k) <==> Empties(g.tree) == {}))
  }

  lemma EndIndex(g: Fast, tree: Tree, d: Disk)
    requires FastOk(g) && Unlinking(g, Empties(g.tree), d) && tree == g.tree - Empties(g.tree)
    ensures IndexOk(d, g.slot, tree, g.tail, g.nextId) && LiveOf(d, tree) == LiveOf(g.d, g.tree)
    ensures HeldAlike(g.d, d, g.tree, tree)
  {
    hide Tracked, Chained, NoBits, LiveSet, LiveAs, SameBut;
    EmptiesAreDead(g.d.vol.chunks, g.tree, g.nextId);
    SameButKeys(g.d.vol.chunks, d.vol.chunks, Empties(g.tree));
    SameItemsLeft(g.d.vol.chunks, d.vol.chunks, g.tree, tree);
    EndTracked(g.d.vol.chunks, d.vol.chunks, g.tree, tree, g.nextId);
    IndexOkShaped(g.d.vol.chunks, g.tree, g.nextId);
  }

  lemma SameItemsLeft(ch: Chunks, ch': Chunks, tree: Tree, tree': Tree)
    requires SameBut(ch, ch', Empties(tree)) && tree' == tree - Empties(tree)
    ensures SameItems(ch, ch', tree'.Keys)
  {
  }

  lemma EmptiesAreDead(ch: Chunks, tree: Tree, nextId: nat)
    requires Tracked(ch, tree, nextId)
    ensures Shaped(ch, tree.Keys) && forall a :: a in Empties(tree) ==> Dead(ch, tree.Keys, a)
  {
    forall a | a in Empties(tree) ensures Dead(ch, tree.Keys, a) {
      EmptyBits(ch, tree, nextId, a);
      assert ChunkOk(ch, tree, nextId, a);
    }
  }

  lemma EndTracked(ch: Chunks, ch': Chunks, tree: Tree, tree': Tree, nextId: nat)
    requires Tracked(ch, tree, nextId) && SameItems(ch, ch', tree'.Keys) && tree' == tree - Empties(tree)
    requires Shaped(ch, tree.Keys) && forall a :: a in Empties(tree) ==> Dead(ch, tree.Keys, a)
    ensures Tracked(ch', tree', nextId) && Shaped(ch', tree'.Keys) && LiveSet(ch', tree'.Keys) == LiveSet(ch, tree.Keys)
    ensures forall a, i, x :: LiveAs(ch, tree.Keys, a, i, x) <==> LiveAs(ch', tree'.Keys, a, i, x)
  {
    hide Tracked, LiveSet;
    DropKeeps(ch, tree, nextId, tree');
    LinksDoNotMatter(ch, ch', tree', nextId);
    LiveWithout(ch, ch', tree.Keys, tree'.Keys, Empties(tree));
  }

  lemma EndSpace(g: Fast, order: seq<nat>, tree: Tree, d: Disk, base: nat, used: nat, free: seq<nat>)
    requires FastOk(g) && Unlinking(g, Empties(g.tree), d) && tree == g.tree - Empties(g.tree)
    requires Members(order) == Empties(g.tree) && NoDuplicates(order)
    requires Space(g.d, base, used, free, LogChunks(g.d, g.slot, g.tree))
    ensures Space(d, base, used, free + order, LogChunks(d, g.slot, tree))
  {
    hide Tracked, Chained, NoBits, SameBut, Members, NoDuplicates, PresCarved;
    SameButKeys(g.d.vol.chunks, d.vol.chunks, Empties(g.tree));
    var inUse := LogChunks(g.d, g.slot, g.tree);
    FreeMore(free, order, inUse);
    assert LogChunks(d, g.slot, tree) == inUse - Empties(g.tree) by {
      assert g.d.vol.roots[g.slot] !in Empties(g.tree);
    }
  }

  lemma FreeMore(free: seq<nat>, order: seq<nat>, inUse: set<nat>)
    requires NoDuplicates(free) && NoDuplicates(order) && Members(order) <= inUse && inUse !! Members(free)
    ensures NoDuplicates(free + order) && Members(free + order) == Members(free) + Members(order)
    ensures inUse - Members(order) !! Members(free + order)
    ensures inUse - Members(order) + Members(free + order) == inUse + Members(free)
  {
    var t := free + order;
    forall i, j | 0 <= i < j < |t| ensures t[i] != t[j] {
      if i < |free| <= j {
        assert t[i] in Members(free) && order[j - |free|] in Members(order);
      }
    }
    assert forall a :: a in t <==> a in free || a in order;
  }

  lemma EndChain(g: Fast, tree: Tree, d: Disk)
    requires FastOk(g) && Chained(g) && Unlinking(g, Empties(g.tree), d) && tree == g.tree - Empties(g.tree)
    ensures g.slot < |g.d.vol.roots| && ChainEnd(g, tree, d)
  {
    hide FastOk, Chained, Unlinking, Kept, NoDescent, KnownPre, Empties, FastSafe, TruePredecessors, PresNotBefore, Durable;
    var E := Empties(g.tree);
    ChainedEnds(g);
    SafeMeans(g.d.vol.chunks, g.tree, g.s);
    if KnownPre(g.tree, g.s, E) && NoDescent(g.s, E) {
      RisingIsDurable(g, tree, d);
    } else if PresNotBefore(g.tree, g.s) {
      forall s ensures !Durable(d, g.slot, tree, g.tail, s) {
        if KnownPre(g.tree, g.s, E) {
          FallingIsNotDurable(g, tree, d, s);
        } else {
          StaleIsNotDurable(g, tree, d, s);
        }
      }
    }
    if PresNotBefore(g.tree, g.s) {
      KeptNotBefore(g.tree, tree, g.s, E);
    }
    if TruePredecessors(g.tree, g.s) {
      PredecessorsAfter(g, tree);
    }
  }

  /** The test on the links says that empty chunks know their predecessors and that addresses rise. */
  lemma SafeMeans(ch: Chunks, tree: Tree, s: seq<nat>)
    requires |s| > 0 && IsChain(ch, s, s[0]) && Holding(s) == tree.Keys
    ensures FastSafe(ch, tree, s[0]) <==> KnownPre(tree, s, Empties(tree)) && NoDescent(s, Empties(tree))
  {
    hide NoBits;
    ChainIsDistinct(ch, s, s[0]);
    if FastSafe(ch, tree, s[0]) {
      SafeIsKnown(ch, tree, s);
    }
    if KnownPre(tree, s, Empties(tree)) && NoDescent(s, Empties(tree)) {
      KnownIsSafe(ch, tree, s);
    }
  }

  lemma SafeIsKnown(ch: Chunks, tree: Tree, s: seq<nat>)
    requires |s| > 0 && IsChain(ch, s, s[0]) && Holding(s) == tree.Keys && Distinct(s) && FastSafe(ch, tree, s[0])
    ensures KnownPre(tree, s, Empties(tree)) && NoDescent(s, Empties(tree))
  {
    hide NoBits;
    var E := Empties(tree);
    InChain(s, s[0]);
    forall i | 0 < i < |s| && s[i] in E ensures s[i] in tree && tree[s[i]].pre == s[i - 1] {
      var pre := tree[s[i]].pre;
      assert LinkedFrom(ch, tree, s[0], s[i]) && pre in s;
      var j :| 0 <= j < |s| && s[j] == pre;
      assert ch[s[j]].next == After(s, j) && s[i] != 0;
      assert s[j + 1] == s[i];
    }
    forall i | 0 <= i && i + 1 < |s| && s[i] in E && s[i + 1] in E ensures s[i] < s[i + 1] {
      assert NextRises(ch, tree, s[i]) && ch[s[i]].next == After(s, i);
    }
  }

  lemma KnownIsSafe(ch: Chunks, tree: Tree, s: seq<nat>)
    requires |s| > 0 && IsChain(ch, s, s[0]) && Holding(s) == tree.Keys && Distinct(s)
    requires KnownPre(tree, s, Empties(tree)) && NoDescent(s, Empties(tree))
    ensures FastSafe(ch, tree, s[0])
  {
    hide NoBits, Distinct, LinkedFrom, NextRises;
    forall a | a in tree && NoBits(tree[a]) ensures LinkedFrom(ch, tree, s[0], a) && NextRises(ch, tree, a) {
      var i :| 0 < i < |s| && s[i] == a;
      KnownIsLinked(ch, tree, s, i);
      RisingIsNext(ch, tree, s, i);
    }
  }

  lemma KnownIsLinked(ch: Chunks, tree: Tree, s: seq<nat>, i: nat)
    requires |s| > 0 && IsChain(ch, s, s[0]) && Holding(s) == tree.Keys && KnownPre(tree, s, Empties(tree))
    requires 0 < i < |s| && s[i] in tree && NoBits(tree[s[i]])
    ensures LinkedFrom(ch, tree, s[0], s[i])
  {
    hide NoBits;
    assert s[i] in Empties(tree);
    assert tree[s[i]].pre == s[i - 1] && ch[s[i - 1]].next == After(s, i - 1);
    assert i - 1 > 0 ==> s[i - 1] in Holding(s);
  }

  lemma RisingIsNext(ch: Chunks, tree: Tree, s: seq<nat>, i: nat)
    requires |s| > 0 && IsChain(ch, s, s[0]) && Holding(s) == tree.Keys && NoDescent(s, Empties(tree))
    requires 0 < i < |s| && s[i] in tree && NoBits(tree[s[i]])
    ensures NextRises(ch, tree, s[i])
  {
    hide NoBits;
    assert s[i] in Empties(tree) && ch[s[i]].next == After(s, i);
    assert 0 !in Holding(s);
    if i + 1 < |s| && NoBits(tree[s[i + 1]]) {
      assert s[i + 1] in Empties(tree);
    }
  }

  /** An empty chunk that does not know its predecessor stays between the root and the rest. */
  lemma StaleIsNotDurable(g: Fast, tree: Tree, d: Disk, s: seq<nat>)
    requires FastOk(g) && Chained(g) && Unlinking(g, Empties(g.tree), d) && tree == g.tree - Empties(g.tree)
    requires PresNotBefore(g.tree, g.s) && !KnownPre(g.tree, g.s, Empties(g.tree))
    ensures !Durable(d, g.slot, tree, g.tail, s)
  {
    hide FastOk, Chained, PresNotBefore, Empties, Stuck, Passing, Relinked, SameBut, IndexOk, Settled, Distinct, IsChain;
    ChainedEnds(g);
    var ch, E := d.vol.chunks, Empties(g.tree);
    var p :| 0 < p < |g.s| && g.s[p] in E && !(g.s[p] in g.tree && g.tree[g.s[p]].pre == g.s[p - 1]);
    assert g.s[p] in g.tree;
    assert Stuck(ch, g.s, p);
    if Durable(d, g.slot, tree, g.tail, s) {
      ThreadedFrom(d, g.slot, tree, g.tail, s);
      assert d.vol.roots[g.slot] == g.s[0] && g.s[p] != g.s[0] && g.s[p] !in tree;
      StuckWalkPasses(ch, g.s, p, s);
    }
  }

  lemma ThreadedFrom(d: Disk, slot: nat, tree: Tree, tail: nat, s: seq<nat>)
    requires Durable(d, slot, tree, tail, s)
    ensures slot < |d.vol.roots| && IsChain(d.vol.chunks, s, d.vol.roots[slot])
    ensures forall a :: a in s <==> a in {d.vol.roots[slot]} + tree.Keys
  {
    InChain(s, d.vol.roots[slot]);
  }

  /** Where the kept chunks stood. */
  function Place(s: seq<nat>, E: set<nat>, i: nat, x: nat): (p: nat)
    requires x < |Kept(s, E, i)|
    ensures i <= p < |s| && s[p] == Kept(s, E, i)[x]
    decreases |s| - i
  {
    if s[i] in E then Place(s, E, i + 1, x) else if x == 0 then i else Place(s, E, i + 1, x - 1)
  }

  lemma {:induction false} PlaceRises(s: seq<nat>, E: set<nat>, i: nat, x: nat, y: nat)
    requires x < y < |Kept(s, E, i)|
    ensures Place(s, E, i, x) < Place(s, E, i, y)
    decreases |s| - i
  {
    if s[i] in E {
      PlaceRises(s, E, i + 1, x, y);
    } else if x > 0 {
      PlaceRises(s, E, i + 1, x - 1, y - 1);
    }
  }

  lemma KeptNotBefore(tree0: Tree, tree: Tree, s: seq<nat>, E: set<nat>)
    requires PresNotBefore(tree0, s) && tree == tree0 - E && Distinct(s)
    ensures PresNotBefore(tree, Kept(s, E, 0))
  {
    hide Kept;
    var k := Kept(s, E, 0);
    forall i | 0 < i < |k| && k[i] in tree ensures tree[k[i]].pre !in k[..i - 1] {
      var p := Place(s, E, 0, i);
      forall j | 0 <= j < i - 1 ensures k[j] in s[..p - 1] {
        PlaceRises(s, E, 0, j, i - 1);
        PlaceRises(s, E, 0, i - 1, i);
        assert s[..p - 1][Place(s, E, 0, j)] == k[j];
      }
    }
  }

  /** The links that fast_GC leaves along the old chain. */
  ghost predicate Swept(s: seq<nat>, E: set<nat>, ch: Chunks, tree: Tree, tail: nat, root: nat) {
    && Relinked(ch, s, E, E) && Distinct(s) && |s| >= 2 && s[0] == root && root !in E
    && s[|s| - 1] == tail && tail !in E && (forall i :: 0 <= i < |s| ==> s[i] != 0)
    && Holding(s) - E == tree.Keys && E <= Holding(s)
  }

  lemma HealthySweep(g: Fast, tree: Tree, d: Disk)
    requires FastOk(g) && Healthy(g) && Unlinking(g, Empties(g.tree), d) && tree == g.tree - Empties(g.tree)
    ensures Swept(g.s, Empties(g.tree), d.vol.chunks, tree, g.tail, g.d.vol.roots[g.slot])
    ensures AgreeOn(d.per.chunks, d.vol.chunks, g.s) && d.vol.alt == d.per.alt == g.slot && g.slot < 2
    ensures DiskOk(d) && d.vol.roots == g.d.vol.roots && d.per.roots[g.slot] == d.vol.roots[g.slot]
  {
    hide Tracked, Relinked, KnownPre, Passing, Trapped, SameBut, PresCarved, Distinct;
    ChainedWalk(g);
    assert tree.Keys == g.tree.Keys - Empties(g.tree);
  }

  lemma RisingIsDurable(g: Fast, tree: Tree, d: Disk)
    requires FastOk(g) && Healthy(g) && Unlinking(g, Empties(g.tree), d) && tree == g.tree - Empties(g.tree)
    requires NoDescent(g.s, Empties(g.tree))
    ensures Durable(d, g.slot, tree, g.tail, Kept(g.s, Empties(g.tree), 0))
  {
    hide FastOk, Healthy, Unlinking, NoDescent, Empties, Kept, Swept, IndexOk;
    var s := Kept(g.s, Empties(g.tree), 0);
    HealthySweep(g, tree, d);
    EndIndex(g, tree, d);
    IndexShape(d, g.slot, tree, g.tail, g.nextId);
    KeptThreaded(g.s, Empties(g.tree), d, tree, g.tail, g.d.vol.roots[g.slot]);
    AgreeingChain(d.vol.chunks, d.per.chunks, s, g.d.vol.roots[g.slot]);
  }

  lemma KeptThreaded(s: seq<nat>, E: set<nat>, d: Disk, tree: Tree, tail: nat, root: nat)
    requires Swept(s, E, d.vol.chunks, tree, tail, root) && NoDescent(s, E) && AgreeOn(d.per.chunks, d.vol.chunks, s)
    ensures var k := Kept(s, E, 0);
            Threaded(d.vol.chunks, tree, tail, root, k) && AgreeOn(d.per.chunks, d.vol.chunks, k)
  {
    hide Relinked, NoDescent, Kept;
    var k := Kept(s, E, 0);
    ChainAfterwards(d.vol.chunks, s, E);
    KeptMembers(s, E, 0);
    assert s[0..] == s;
    ChainIsDistinct(d.vol.chunks, k, root);
    SplitRoot(s, root);
    SplitRoot(k, root);
    KeptLast(s, E, 0);
    assert tail in s && tail in k;
    assert Holding(k) == Holding(s) - E;
  }

  lemma SplitRoot(s: seq<nat>, root: nat)
    requires |s| > 0 && s[0] == root && Distinct(s)
    ensures forall a :: a in Holding(s) <==> a in s && a != root
  {
    InChain(s, root);
  }

  lemma {:induction false} KeptLast(s: seq<nat>, E: set<nat>, i: nat)
    requires i < |s| && s[|s| - 1] !in E
    ensures var k := Kept(s, E, i); |k| > 0 && k[|k| - 1] == s[|s| - 1]
    decreases |s| - i
  {
    var rest := Kept(s, E, i + 1);
    assert Kept(s, E, i) == (if s[i] in E then [] else [s[i]]) + rest;
    if i + 1 < |s| {
      KeptLast(s, E, i + 1);
    } else {
      assert rest == [];
    }
  }

  lemma FallingIsNotDurable(g: Fast, tree: Tree, d: Disk, s: seq<nat>)
    requires FastOk(g) && Healthy(g) && Unlinking(g, Empties(g.tree), d) && tree == g.tree - Empties(g.tree)
    requires !NoDescent(g.s, Empties(g.tree))
    ensures !Durable(d, g.slot, tree, g.tail, s)
  {
    hide FastOk, Healthy, Unlinking, NoDescent, Empties, Swept, IndexOk, Settled;
    HealthySweep(g, tree, d);
    if Durable(d, g.slot, tree, g.tail, s) {
      OtherWalk(g.s, Empties(g.tree), d.vol.chunks, tree, g.tail, g.d.vol.roots[g.slot], s);
    }
  }

  /** No walk from the root can hold exactly the chunks that are left. */
  lemma OtherWalk(s: seq<nat>, E: set<nat>, ch: Chunks, tree: Tree, tail: nat, root: nat, s': seq<nat>)
    requires Swept(s, E, ch, tree, tail, root) && !NoDescent(s, E)
    ensures !Threaded(ch, tree, tail, root, s')
  {
    hide NoDescent, Threaded;
    KeptAreLinked(ch, s, E);
    FallingPointsWrong(ch, s, E);
    var i :| 0 <= i < |s| && s[i] !in E && ch[s[i]].next in E;
    SplitRoot(s, root);
    assert s[i] in s && 0 !in Holding(s) && E !! tree.Keys;
    if Threaded(ch, tree, tail, root, s') {
      WalkStays(ch, tree, tail, root, s', s[i]);
    }
  }

  lemma WalkStays(ch: Chunks, tree: Tree, tail: nat, root: nat, s: seq<nat>, a: nat)
    requires Threaded(ch, tree, tail, root, s) && a in {root} + tree.Keys
    ensures a in ch && ch[a].next in tree.Keys + {0}
  {
    InChain(s, root);
    var j :| 0 <= j < |s| && s[j] == a;
    assert ch[s[j]].next == After(s, j);
    assert j + 1 < |s| ==> s[j + 1] in Holding(s);
  }

  lemma PredecessorsAfter(g: Fast, tree: Tree)
    requires FastOk(g) && Chained(g) && TruePredecessors(g.tree, g.s) && tree == g.tree - Empties(g.tree)
    ensures TruePredecessors(tree, Kept(g.s, Empties(g.tree), 0)) <==> Empties(g.tree) == {}
  {
    hide FastOk, Chained, Empties, Kept, TruePredecessors, Distinct, IsChain;
    var E := Empties(g.tree);
    ChainedEnds(g);
    if E == {} {
      KeptAll(g.s, 0);
      assert tree == g.tree && g.s[0..] == g.s;
    } else {
      StalePredecessor(g.tree, tree, g.s, E);
    }
  }

  lemma ChainedEnds(g: Fast)
    requires FastOk(g) && Chained(g)
    ensures g.slot < |g.d.vol.roots| && IsChain(g.d.vol.chunks, g.s, g.d.vol.roots[g.slot])
    ensures var E := Empties(g.tree);
            && Distinct(g.s) && |g.s| >= 2 && g.s[0] == g.d.vol.roots[g.slot] && g.s[0] !in E && g.s[|g.s| - 1] !in E
            && Holding(g.s) == g.tree.Keys && E <= g.tree.Keys && forall i :: 0 <= i < |g.s| ==> g.s[i] != 0
  {
    hide FastOk, Chained, Empties, Distinct;
    SlotOfFast(g);
    ChainedWalk(g);
    RootAndTail(g);
  }

  lemma RootAndTail(g: Fast)
    requires FastOk(g) && Chained(g)
    ensures g.slot < |g.d.vol.roots| && g.d.vol.roots[g.slot] !in g.tree && Empties(g.tree) <= g.tree.Keys
    ensures |g.s| >= 2 && g.s[|g.s| - 1] == g.tail && g.tail !in Empties(g.tree)
  {
    hide Tracked, PresCarved, Settled, IsChain;
  }

  lemma {:induction false} KeptAll(s: seq<nat>, i: nat)
    requires i <= |s|
    ensures Kept(s, {}, i) == s[i..]
    decreases |s| - i
  {
    if i < |s| {
      KeptAll(s, i + 1);
      assert s[i..] == [s[i]] + s[i + 1..];
    }
  }

  /** Behind every collected run stands a kept chunk that still knows the last one of the run. */
  lemma StalePredecessor(tree0: Tree, tree: Tree, s: seq<nat>, E: set<nat>)
    requires TruePredecessors(tree0, s) && Distinct(s) && |s| >= 2 && s[0] !in E && s[|s| - 1] !in E
    requires E != {} && E <= Holding(s) && tree == tree0 - E
    ensures !TruePredecessors(tree, Kept(s, E, 0))
  {
    var e :| e in E;
    var j :| 0 < j < |s| && s[j] == e;
    var k := RunEnd(s, E, j);
    var kept := Kept(s, E, 0);
    KeptMembers(s, E, 0);
    assert s[0..] == s && s[k + 1] in s;
    var i :| 0 <= i < |kept| && kept[i] == s[k + 1];
    assert kept[0] == s[0] && tree0[s[k + 1]].pre == s[k];
    assert i > 0 ==> kept[i - 1] in kept;
  }

  lemma {:induction false} RunEnd(s: seq<nat>, E: set<nat>, k: nat) returns (i: nat)
    requires k < |s| && s[|s| - 1] !in E && s[k] in E
    ensures k <= i && i + 1 < |s| && s[i] in E && s[i + 1] !in E
    decreases |s| - k
  {
    if s[k + 1] !in E {
      i := k;
    } else {
      i := RunEnd(s, E, k + 1);
    }
  }

  lemma {:induction false} KeptMembers(s: seq<nat>, E: set<nat>, i: nat)
    ensures forall a :: a in Kept(s, E, i) <==> a in (if i <= |s| then s[i..] else []) && a !in E
    decreases |s| - i
  {
    if i < |s| {
      KeptMembers(s, E, i + 1);
      assert s[i..] == [s[i]] + s[i + 1..];
    }
  }

  // ---------------------------------------------------------------------------------------
  // Crashes during fast_GC
  // ---------------------------------------------------------------------------------------

  /** Emptied chunks that are still on the walk hold nothing. */
  lemma LiveRest(g: Fast, P: set<nat>, d: Disk, A: set<nat>)
    requires FastOk(g) && Unlinking(g, P, d) && g.tree.Keys - P <= A <= g.tree.Keys
    ensures Shaped(d.vol.chunks, A) && LiveSet(d.vol.chunks, A) == LiveOf(g.d, g.tree)
    ensures forall a :: a in A && a in Empties(g.tree) ==> Dead(d.vol.chunks, A, a)
  {
    hide Tracked, Chained, NoBits, LiveSet, LiveAs, PresCarved;
    var ch, A' := d.vol.chunks, g.tree.Keys - P;
    TurnLive(g, P, d);
    EmptiesAreDead(g.d.vol.chunks, g.tree, g.nextId);
    assert Shaped(ch, A);
    forall a | a in A - A' ensures Dead(ch, A, a) {
      assert Dead(g.d.vol.chunks, g.tree.Keys, a) && ch[a].id == 0;
    }
    WithoutDead(ch, A, A');
    forall a | a in A && a in Empties(g.tree) ensures Dead(ch, A, a) {
      if a in A' {
        DeadStill(g, P, d, a);
      }
    }
  }

  lemma TurnLive(g: Fast, P: set<nat>, d: Disk)
    requires FastOk(g) && Unlinking(g, P, d)
    ensures Shaped(d.vol.chunks, g.tree.Keys - P) && LiveSet(d.vol.chunks, g.tree.Keys - P) == LiveOf(g.d, g.tree)
  {
    hide Tracked, Chained, NoBits, LiveSet, LiveAs, Dead, PresCarved;
    EmptiesAreDead(g.d.vol.chunks, g.tree, g.nextId);
    assert SameItems(g.d.vol.chunks, d.vol.chunks, g.tree.Keys - P);
    LiveWithout(g.d.vol.chunks, d.vol.chunks, g.tree.Keys, g.tree.Keys - P, P);
  }

  lemma DeadStill(g: Fast, P: set<nat>, d: Disk, a: nat)
    requires FastOk(g) && Unlinking(g, P, d) && a in Empties(g.tree) && a !in P
    requires Shaped(d.vol.chunks, g.tree.Keys - P)
    ensures Dead(d.vol.chunks, g.tree.Keys - P, a)
  {
    hide Tracked, Chained, NoBits, LiveSet, PresCarved;
    var ch, A := d.vol.chunks, g.tree.Keys - P;
    EmptiesAreDead(g.d.vol.chunks, g.tree, g.nextId);
    assert SameItems(g.d.vol.chunks, ch, A);
    LiveWithout(g.d.vol.chunks, ch, g.tree.Keys, A, P);
    forall i | 0 <= i < ITEMS ensures !Live(ch, A, a, i) && !(Written(ch[a].items[i]) && ch[a].items[i].kind.Free?) {
      assert Dead(g.d.vol.chunks, g.tree.Keys, a);
      assert ch[a].items == g.d.vol.chunks[a].items;
      assert LiveAs(ch, A, a, i, ch[a].items[i]) <==> LiveAs(g.d.vol.chunks, g.tree.Keys, a, i, ch[a].items[i]);
    }
  }

  /** The state between two turns of the loop, seen from a crash: t is what a replay walks along. */
  lemma TurnRecoverable(g: Fast, P: set<nat>, d: Disk, t: seq<nat>)
    requires FastOk(g) && Chained(g) && Unlinking(g, P, d)
    requires g.slot < |g.d.vol.roots| && Passes(d.vol.chunks, t, g.d.vol.roots[g.slot], P, g.tree.Keys)
    ensures Settled(d, t) && LiveSet(d.per.chunks, Holding(t)) == LiveOf(g.d, g.tree)
    ensures forall a :: a in Holding(t) && a in Empties(g.tree) ==> Dead(d.per.chunks, Holding(t), a)
  {
    hide FastOk, Empties, Relinked, KnownPre, Harmless, Passing, Trapped, SameBut, LiveSet, Distinct;
    var root := g.d.vol.roots[g.slot];
    ChainedWalk(g);
    LiveRest(g, P, d, Holding(t));
    InChain(t, root);
    assert AgreeOn(d.per.chunks, d.vol.chunks, t);
    AgreeingChain(d.vol.chunks, d.per.chunks, t, root);
    LiveSame(d.vol.chunks, d.per.chunks, Holding(t));
  }

  /** A word of chunk a in the chain is in flight, either an id or a link: every surviving image
      agrees, along one of two chains, with one of two versions of the chunks. */
  lemma EitherReplays(d: Disk, m: Disk, s: seq<nat>, a: nat, c: Chunk, s': seq<nat>, live: set<Item>)
    requires Settled(d, s) && a in s && m == StoreChunk(d, a, c) && c.items == d.vol.chunks[a].items
    requires c.id == d.vol.chunks[a].id || c.next == d.vol.chunks[a].next
    requires LiveSet(d.per.chunks, Holding(s)) == live
    requires var ch' := d.per.chunks[a := c];
             IsLog(ch', s', d.per.roots[d.per.alt]) && LiveSet(ch', Holding(s')) == live
    requires forall b :: b in s' ==> b in s
    ensures Recovers(m, live, live)
  {
    hide LiveSet, Replays;
    var ch' := d.per.chunks[a := c];
    forall img | Survives(img, m) ensures WellFormed(img) && Replays(img, live) {
      OtherChunks(d, m, s, a, c, img);
      if img.chunks[a] == c {
        AgreeingReplays(img, ch', s');
      } else {
        AgreeingReplays(img, d.per.chunks, s);
      }
    }
  }

  lemma OtherChunks(d: Disk, m: Disk, s: seq<nat>, a: nat, c: Chunk, img: Image)
    requires Settled(d, s) && a in s && m == StoreChunk(d, a, c) && c.items == d.vol.chunks[a].items
    requires c.id == d.vol.chunks[a].id || c.next == d.vol.chunks[a].next
    requires WellFormed(m.vol) && WellFormed(m.per) && Survives(img, m)
    ensures WellFormed(img) && img.roots[img.alt] == d.per.roots[d.per.alt]
    ensures forall b :: b in s && b != a ==> b in img.chunks && img.chunks[b] == d.per.chunks[b]
    ensures a in img.chunks && (img.chunks[a] == c || img.chunks[a] == d.per.chunks[a])
  {
    forall b | b in s && b != a ensures b in img.chunks && img.chunks[b] == d.per.chunks[b] {
      SameSurvives(img.chunks[b], m.per.chunks[b], m.vol.chunks[b]);
    }
    assert img.chunks[a].items == d.per.chunks[a].items;
  }

  /** Without its id, a dead chunk is still dead. */
  lemma IdGone(ch: Chunks, A: set<nat>, a: nat)
    requires Shaped(ch, A) && a in A && Dead(ch, A, a)
    ensures var ch' := ch[a := ch[a].(id := 0)]; Shaped(ch', A) && LiveSet(ch', A) == LiveSet(ch, A)
  {
    var ch' := ch[a := ch[a].(id := 0)];
    WithoutDead(ch, A, A - {a});
    LiveSame(ch, ch', A - {a});
    forall i | 0 <= i < ITEMS
      ensures !Live(ch', A, a, i) && !(Written(ch'[a].items[i]) && ch'[a].items[i].kind.Free?)
    {
      assert !Live(ch, A, a, i) && !(Written(ch[a].items[i]) && ch[a].items[i].kind.Free?);
    }
    WithoutDead(ch', A, A - {a});
  }

  /** The first two stores of a turn: the id of the empty chunk is cleared and persisted. */
  lemma IdMoments(d: Disk, s: seq<nat>, a: nat, live: set<Item>)
    requires Settled(d, s) && a in Holding(s) && LiveSet(d.per.chunks, Holding(s)) == live && Dead(d.per.chunks, Holding(s), a)
    ensures a in d.vol.chunks && a in d.per.chunks
    ensures Recovers(StoreId(d, a, 0), live, live) && Recovers(FastId(d, a), live, live)
    ensures Settled(FastId(d, a), s) && LiveSet(FastId(d, a).per.chunks, Holding(s)) == live
  {
    hide LiveSet, Recovers, Dead;
    var c := d.vol.chunks[a].(id := 0);
    IdGone(d.per.chunks, Holding(s), a);
    IdSettled(d, s, a);
    EitherReplays(d, StoreId(d, a, 0), s, a, c, s, live);
    SettledRecovers(FastId(d, a), s);
  }

  lemma IdSettled(d: Disk, s: seq<nat>, a: nat)
    requires Settled(d, s) && a in Holding(s)
    ensures a in s && a in d.vol.chunks && a in d.per.chunks && d.vol.chunks[a] == d.per.chunks[a]
    ensures FastId(d, a).per.chunks == d.per.chunks[a := d.per.chunks[a].(id := 0)]
    ensures IsLog(FastId(d, a).per.chunks, s, d.per.roots[d.per.alt]) && Settled(FastId(d, a), s)
  {
    var ch, c := d.per.chunks, d.per.chunks[a].(id := 0);
    assert d.vol.chunks[a] == d.per.chunks[a];
    assert FastId(d, a).per.chunks == ch[a := c];
    IdNotLinked(ch, s, d.per.roots[d.per.alt], a, c);
  }

  lemma IdNotLinked(ch: Chunks, s: seq<nat>, root: nat, a: nat, c: Chunk)
    requires IsLog(ch, s, root) && a in ch && c.next == ch[a].next && c.items == ch[a].items
    ensures IsLog(ch[a := c], s, root)
  {
  }

  /** The last two: the link over the chunk is set and persisted. */
  lemma LinkMomentsFast(d: Disk, s: seq<nat>, pre: nat, n: nat, s': seq<nat>, live: set<Item>)
    requires Settled(d, s) && pre in s && LiveSet(d.per.chunks, Holding(s)) == live && forall b :: b in s' ==> b in s
    requires pre in d.vol.chunks && pre in d.per.chunks
    requires var d' := FlushNext(StoreNext(d, pre, n), pre); Settled(d', s') && LiveSet(d'.per.chunks, Holding(s')) == live
    ensures Recovers(StoreNext(d, pre, n), live, live) && Recovers(FlushNext(StoreNext(d, pre, n), pre), live, live)
  {
    hide LiveSet, Recovers;
    var d' := FlushNext(StoreNext(d, pre, n), pre);
    var c := d.vol.chunks[pre].(next := n);
    assert d.vol.chunks[pre] == d.per.chunks[pre];
    assert d'.per.chunks == d.per.chunks[pre := c];
    EitherReplays(d, StoreNext(d, pre, n), s, pre, c, s', live);
    SettledRecovers(d', s');
  }

  function Turn(d: Disk, a: nat, pre: nat): seq<Disk>
    requires a in d.vol.chunks && a in d.per.chunks && pre in d.vol.chunks && pre in d.per.chunks
  {
    var d2 := FastId(d, a);
    [StoreId(d, a, 0), d2, StoreNext(d2, pre, d2.vol.chunks[a].next), FastNext(d, a, pre)]
  }

  /** A link of a chunk off the walk is in flight. */
  lemma LinkAside(d: Disk, t: seq<nat>, pre: nat, n: nat)
    requires Settled(d, t) && pre !in t && pre in d.vol.chunks && pre in d.per.chunks
    ensures var d1 := StoreNext(d, pre, n); var d2 := FlushNext(d1, pre); var live := LiveSet(d.per.chunks, Holding(t));
            Recovers(d1, live, live) && Recovers(d2, live, live)
  {
    var d1 := StoreNext(d, pre, n);
    var d2 := FlushNext(d1, pre);
    SettledRecovers(d1, t);
    AsideChain(d.per.chunks, d2.per.chunks, t, d.per.roots[d.per.alt]);
    SettledRecovers(d2, t);
  }

  lemma AsideChain(ch: Chunks, ch': Chunks, t: seq<nat>, root: nat)
    requires IsLog(ch, t, root) && forall a :: a in t ==> a in ch && a in ch' && ch'[a] == ch[a]
    ensures IsLog(ch', t, root) && LiveSet(ch', Holding(t)) == LiveSet(ch, Holding(t))
  {
    assert forall i :: 0 <= i < |t| ==> t[i] in t;
    LiveSame(ch, ch', Holding(t));
  }

  /** At every moment of a turn a crash leaves the live set as it was. */
  lemma TurnMoments(g: Fast, P: set<nat>, d: Disk, a: nat)
    requires FastOk(g) && Unlinking(g, P, d) && a in Empties(g.tree) && a !in P
    requires forall b :: b in Empties(g.tree) ==> (b in P <==> b > a)
    ensures var pre := g.tree[a].pre;
            && a in d.vol.chunks && a in d.per.chunks && pre in d.vol.chunks && pre in d.per.chunks
            && (Chained(g) && Harmless(g.tree, g.s, Empties(g.tree)) ==>
                  AllRecover(Turn(d, a, pre), LiveOf(g.d, g.tree), LiveOf(g.d, g.tree)))
  {
    hide FastOk, Chained, Unlinking, Harmless, Recovers, Settled, LiveSet, LiveOf, Dead, NoBits, Passes, Passing;
    UnlinkOne(g, P, d, a);
    if Chained(g) && Harmless(g.tree, g.s, Empties(g.tree)) {
      ChainedEnds(g);
      var pre, root, live := g.tree[a].pre, g.d.vol.roots[g.slot], LiveOf(g.d, g.tree);
      var t, t' := TurnWalks(g, P, d, a);
      TurnRecoverable(g, P, d, t);
      TurnRecoverable(g, P + {a}, FastNext(d, a, pre), t');
      IdMoments(d, t, a, live);
      if pre in t {
        LinkMomentsFast(FastId(d, a), t, pre, FastId(d, a).vol.chunks[a].next, t', live);
      } else {
        LinkAside(FastId(d, a), t, pre, FastId(d, a).vol.chunks[a].next);
      }
    }
  }

  lemma PassingNow(g: Fast, P: set<nat>, d: Disk)
    requires Chained(g) && Harmless(g.tree, g.s, Empties(g.tree)) && Unlinking(g, P, d)
    ensures Passing(d.vol.chunks, g.s, P, g.tree.Keys)
  {
    hide Chained, Passing, Harmless;
  }

  lemma PointsTo(ch: Chunks, tree: Tree, s: seq<nat>, E: set<nat>, P: set<nat>, t: seq<nat>, a: nat)
    requires |s| > 0 && Passes(ch, t, s[0], P, tree.Keys) && Pointed(ch, s, P) && Harmless(tree, s, E)
    requires Holding(s) == tree.Keys && a in E && a in tree && a !in P
    ensures a in Holding(t) && (tree[a].pre in t ==> tree[a].pre in ch && ch[tree[a].pre].next == a)
  {
    hide IsChain;
    assert a in tree.Keys - P && a in Holding(t);
    var q :| 0 < q < |s| && s[q] == a;
    assert |t| > 0 && t[0] == s[0] by { WalkStarts(ch, t, s[0]); }
    InChain(s, s[0]);
    InChain(t, s[0]);
    assert tree[a].pre in t ==> tree[a].pre in s;
    var i := q - 1;
    assert s[i + 1] !in P ==> s[i] in ch && ch[s[i]].next == s[i + 1];
  }

  lemma WalkStarts(ch: Chunks, t: seq<nat>, root: nat)
    requires IsChain(ch, t, root)
    ensures |t| > 0 && t[0] == root
  {
  }

  lemma TurnWalks(g: Fast, P: set<nat>, d: Disk, a: nat) returns (t: seq<nat>, t': seq<nat>)
    requires FastOk(g) && Chained(g) && Harmless(g.tree, g.s, Empties(g.tree)) && Unlinking(g, P, d) && a in Empties(g.tree) && a !in P
    requires a in d.vol.chunks && a in d.per.chunks && g.tree[a].pre in d.vol.chunks && g.tree[a].pre in d.per.chunks
    ensures g.slot < |g.d.vol.roots| && a in Holding(t)
    ensures Passes(d.vol.chunks, t, g.d.vol.roots[g.slot], P, g.tree.Keys)
    ensures Passes(FastNext(d, a, g.tree[a].pre).vol.chunks, t', g.d.vol.roots[g.slot], P + {a}, g.tree.Keys)
    ensures forall b :: b in t' ==> b in t
  {
    hide FastOk, Chained, Empties, Distinct, FastNext, Pointed, Harmless, IsChain;
    PassingNow(g, P, d);
    ChainedEnds(g);
    var root, pre := g.s[0], g.tree[a].pre;
    t :| Passes(d.vol.chunks, t, root, P, g.tree.Keys);
    PointsTo(d.vol.chunks, g.tree, g.s, Empties(g.tree), P, t, a);
    FastUnlinks(d, a, pre);
    t' := PassTurn(d.vol.chunks, t, root, P, g.tree.Keys, a, pre);
  }

  // ---------------------------------------------------------------------------------------
  // What goes wrong otherwise
  // ---------------------------------------------------------------------------------------

  /** One unlinking: it takes the chunk out of the chain if and only if the chunk remembers the one
      before it. */
  lemma UnlinkNeedsPredecessor(ch: Chunks, s: seq<nat>, root: nat, i: nat, p: nat)
    requires IsChain(ch, s, root) && i + 1 < |s| && p in ch && p != s[i + 1]
    ensures s[i + 1] in ch
    ensures IsChain(Unlinked(ch, s[i + 1], p), s[..i + 1] + s[i + 2..], root) <==> p == s[i]
  {
    hide Unlinked;
    ChainIsDistinct(ch, s, root);
    if p == s[i] {
      UnlinkedIsChain(ch, s, root, i);
    } else {
      UnlinkedElsewhere(ch, s, root, i, p);
    }
  }

  lemma UnlinkedIsChain(ch: Chunks, s: seq<nat>, root: nat, i: nat)
    requires IsChain(ch, s, root) && Distinct(s) && i + 1 < |s|
    ensures s[i] in ch && s[i + 1] in ch && IsChain(Unlinked(ch, s[i + 1], s[i]), s[..i + 1] + s[i + 2..], root)
  {
    hide Unlinked, Distinct, After;
    var s' := s[..i + 1] + s[i + 2..];
    var ch' := Unlinked(ch, s[i + 1], s[i]);
    forall j | 0 <= j < |s'| ensures s'[j] in ch' && s'[j] != 0 && ch'[s'[j]].next == After(s', j) {
      var k := if j <= i then j else j + 1;
      AfterDropped(s, i, j);
      NextDropped(ch, s, i, k);
    }
  }

  lemma AfterDropped(s: seq<nat>, i: nat, j: nat)
    requires i + 1 < |s| && j + 1 < |s|
    ensures var s' := s[..i + 1] + s[i + 2..];
            var k := if j <= i then j else j + 1;
            s'[j] == s[k] && After(s', j) == After(s, if j == i then i + 1 else k)
  {
  }

  lemma NextDropped(ch: Chunks, s: seq<nat>, i: nat, k: nat)
    requires Distinct(s) && i + 1 < |s| && k < |s| && k != i + 1 && s[i] in ch && s[i + 1] in ch && s[k] in ch
    ensures var ch' := Unlinked(ch, s[i + 1], s[i]);
            s[k] in ch' && ch'[s[k]].next == if k == i then ch[s[i + 1]].next else ch[s[k]].next
  {
  }

  lemma UnlinkedElsewhere(ch: Chunks, s: seq<nat>, root: nat, i: nat, p: nat)
    requires IsChain(ch, s, root) && Distinct(s) && i + 1 < |s| && p in ch && p != s[i] && p != s[i + 1] && s[i + 1] in ch
    ensures !IsChain(Unlinked(ch, s[i + 1], p), s[..i + 1] + s[i + 2..], root)
  {
    var s' := s[..i + 1] + s[i + 2..];
    var ch' := Unlinked(ch, s[i + 1], p);
    assert s'[i] == s[i] && After(s', i) == After(s, i + 1) && After(s, i) == s[i + 1];
    assert s[i] in ch && ch'[s[i]].next == s[i + 1];
    NotAfter(s, i);
  }

  lemma NotAfter(s: seq<nat>, i: nat)
    requires i + 1 < |s| && Distinct(s) && s[i + 1] != 0
    ensures After(s, i + 1) != s[i + 1]
  {
  }

  /** A chunk that is still in the chain when it is allocated again cuts off everything behind it. */
  lemma ReuseCutsChain(ch: Chunks, s: seq<nat>, root: nat, i: nat, id: nat)
    requires IsChain(ch, s, root) && i < |s|
    ensures IsChain(ch[s[i] := NewChunk(id)], s[..i + 1], root)
  {
    var s', ch' := s[..i + 1], ch[s[i] := NewChunk(id)];
    ChainIsDistinct(ch, s, root);
    forall j | 0 <= j < |s'| ensures s'[j] in ch' && s'[j] != 0 && ch'[s'[j]].next == After(s', j) {
      assert s'[j] == s[j];
      assert j < i ==> After(s', j) == After(s, j);
    }
  }
}
