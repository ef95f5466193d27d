/** fast_GC of src/log.c where it fails: what becomes of an empty chunk that is not unlinked. */
module LogFastCases {
  import opened LogSpec
  import opened LogCrash
  import opened LogState
  import opened LogDisk
  import opened Log
  import opened LogArena
  import opened LogFast

  /** The collection of one empty chunk, at position i, that remembers a chunk outside the chain: it stays
      in the chain, and when it is allocated again everything behind it is out of the chain. */
  lemma StaleChunkStays(g: Fast, i: nat, id: nat)
    requires FastOk(g) && Chained(g) && 0 < i < |g.s| && Empties(g.tree) == {g.s[i]} && g.tree[g.s[i]].pre !in g.s
    ensures g.slot < |g.d.vol.roots|
    ensures var b := g.s[i]; var pre := g.tree[b].pre;
      && b in g.d.vol.chunks && b in g.d.per.chunks && pre in g.d.vol.chunks && pre in g.d.per.chunks
      && var ch := FastNext(g.d, b, pre).vol.chunks;
         && IsChain(ch, g.s, g.d.vol.roots[g.slot])
         && IsChain(ch[b := NewChunk(id)], g.s[..i + 1], g.d.vol.roots[g.slot])
  {
    hide FastOk, Chained, Empties, FastNext;
    ChainedEnds(g);
    var b, root := g.s[i], g.d.vol.roots[g.slot];
    UnlinkStart(g);
    UnlinkOne(g, {}, g.d, b);
    FastUnlinks(g.d, b, g.tree[b].pre);
    SameWalk(g.d.vol.chunks, g.s, root, b, g.tree[b].pre);
    ReuseCutsChain(FastNext(g.d, b, g.tree[b].pre).vol.chunks, g.s, root, i, id);
  }

  /** b' has been reached from b by calls of add_log. */
  ghost predicate Extends(b: Book, b': Book) {
    b.chain <= b'.chain && forall a :: a in b.tree ==> a in b'.tree && b'.tree[a].pre == b.tree[a].pre
  }

  lemma LoggedExtends(base: nat, b: Book, b': Book, kind: Kind, ptr: nat)
    requires Extends(b, b') && NextChunk(base, b'.used, b'.free) !in b'.tree
    ensures Extends(b, Logged(base, b', kind, ptr))
  {
    var b1 := WithRoom(base, b');
    assert b'.chain <= b1.chain;
    forall a | a in b.tree ensures a in b1.tree && b1.tree[a].pre == b.tree[a].pre {
    }
    NotedSame(b1, kind, ptr);
  }

  lemma NotedSame(b: Book, kind: Kind, ptr: nat)
    ensures var b' := Noted(b, kind, ptr); b'.chain == b.chain && b'.tree.Keys == b.tree.Keys
    ensures forall a :: a in b.tree ==> Noted(b, kind, ptr).tree[a].pre == b.tree[a].pre
  {
  }

  /** So it goes with two collections: the first, of g, takes out chunk a at position i; the kept chunk b
      behind it still remembers a.  Whatever add_log does afterwards, b stands behind another chunk than a:
      once b is empty, the second collection, of g2, fails.  If a has not been linked again and b is the
      only empty chunk, b stays in the chain, and allocating it again loses everything behind it. */
  lemma TwoCollectionsLoseChunks(g: Fast, i: nat, b1: Book, b2: Book, g2: Fast, id: nat) returns (j: nat)
    requires FastOk(g) && Chained(g) && TruePredecessors(g.tree, g.s) && 0 < i && i + 1 < |g.s|
    requires g.s[i] in Empties(g.tree) && g.s[i + 1] !in Empties(g.tree)
    requires b1.tree == g.tree - Empties(g.tree) && b1.chain == Kept(g.s, Empties(g.tree), 0) && Extends(b1, b2)
    requires FastOk(g2) && Chained(g2) && g2.tree == b2.tree && g2.s == b2.chain && g.s[i + 1] in Empties(g2.tree)
    ensures 0 < j < |g2.s| && g2.s[j] == g.s[i + 1] && g2.s[j] in g2.tree && g2.tree[g2.s[j]].pre == g.s[i] != g2.s[j - 1]
    ensures g2.slot < |g2.d.vol.roots| && !FastSafe(g2.d.vol.chunks, g2.tree, g2.d.vol.roots[g2.slot])
    ensures Empties(g2.tree) == {g2.s[j]} && g.s[i] !in g2.s ==>
              && g2.s[j] in g2.d.vol.chunks && g2.s[j] in g2.d.per.chunks && g.s[i] in g2.d.vol.chunks && g.s[i] in g2.d.per.chunks
              && var ch := FastNext(g2.d, g2.s[j], g.s[i]).vol.chunks;
                 && IsChain(ch, g2.s, g2.d.vol.roots[g2.slot])
                 && IsChain(ch[g2.s[j] := NewChunk(id)], g2.s[..j + 1], g2.d.vol.roots[g2.slot])
  {
    hide FastOk, Chained, Empties, FastNext, IsChain, FastSafe, Kept, TruePredecessors, Extends, Distinct;
    ChainedEnds(g);
    ChainedEnds(g2);
    j := Follower(g.tree, g.s, Empties(g.tree), i, b1, b2);
    SafeMeans(g2.d.vol.chunks, g2.tree, g2.s);
    if Empties(g2.tree) == {g2.s[j]} && g.s[i] !in g2.s {
      StaleChunkStays(g2, j, id);
    }
  }

  lemma Follower(tree: Tree, s: seq<nat>, E: set<nat>, i: nat, b1: Book, b2: Book) returns (j: nat)
    requires Distinct(s) && TruePredecessors(tree, s) && 0 < i && i + 1 < |s| && s[0] !in E && s[i] in E && s[i + 1] !in E
    requires b1.tree == tree - E && b1.chain == Kept(s, E, 0) && Extends(b1, b2)
    ensures 0 < j < |b2.chain| && b2.chain[j] == s[i + 1] && s[i + 1] in b2.tree && b2.tree[s[i + 1]].pre == s[i] != b2.chain[j - 1]
  {
    hide Kept;
    var k := Kept(s, E, 0);
    KeptMembers(s, E, 0);
    assert s[0..] == s && s[i + 1] in s;
    j :| 0 <= j < |k| && k[j] == s[i + 1];
    KeptStart(s, E);
    assert k[j - 1] in k;
    assert s[i + 1] in b1.tree;
  }

  lemma KeptStart(s: seq<nat>, E: set<nat>)
    requires |s| > 0 && s[0] !in E
    ensures Kept(s, E, 0) != [] && Kept(s, E, 0)[0] == s[0]
  {
  }

  /** An empty chunk that remembers a chunk behind it: its predecessor still points to it, and the chunk
      behind points back.  The walk from the root never ends. */
  lemma BehindLoops(ch: Chunks, s: seq<nat>, root: nat, i: nat, j: nat, t: seq<nat>)
    requires IsChain(ch, s, root) && 0 < i < j < |s|
    ensures s[i] in ch && s[j] in ch && !IsChain(Unlinked(ch, s[i], s[j]), t, root)
  {
    hide Unlinked;
    ChainIsDistinct(ch, s, root);
    var ch', S := Unlinked(ch, s[i], s[j]), Members(s[..j + 1]);
    forall a | a in S ensures a in ch' && ch'[a].next in S && ch'[a].next != 0 {
      var k :| 0 <= k < |s[..j + 1]| && s[..j + 1][k] == a;
      LoopStep(ch, s, root, i, j, k);
    }
    assert s[..j + 1][0] == root;
    if IsChain(ch', t, root) {
      StaysWithin(ch', t, root, S, |t| - 1);
    }
  }

  lemma LoopStep(ch: Chunks, s: seq<nat>, root: nat, i: nat, j: nat, k: nat)
    requires IsChain(ch, s, root) && Distinct(s) && 0 < i < j < |s| && k <= j
    ensures s[i] in ch && s[j] in ch && s[k] in Unlinked(ch, s[i], s[j])
    ensures var n := Unlinked(ch, s[i], s[j])[s[k]].next; n != 0 && n in s[..j + 1]
  {
    var n := if k == j then i + 1 else k + 1;
    assert Unlinked(ch, s[i], s[j])[s[k]].next == s[n] && s[n] == s[..j + 1][n];
  }

  lemma {:induction false} StaysWithin(ch: Chunks, t: seq<nat>, root: nat, S: set<nat>, k: nat)
    requires IsChain(ch, t, root) && root in S && k < |t|
    requires forall a :: a in S ==> a in ch && ch[a].next in S && ch[a].next != 0
    ensures t[k] in S && k + 1 < |t|
  {
    if k > 0 {
      StaysWithin(ch, t, root, S, k - 1);
    }
  }

  /** So a replay of the file recovers nothing. */
  lemma BehindRecoversNothing(g: Fast, i: nat, j: nat, live: set<Item>)
    requires FastOk(g) && Chained(g) && 0 < i < j < |g.s|
    ensures g.s[i] in g.d.vol.chunks && g.s[i] in g.d.per.chunks && g.s[j] in g.d.vol.chunks && g.s[j] in g.d.per.chunks
    ensures var img := FastNext(g.d, g.s[i], g.s[j]).per; WellFormed(img) && !Replays(img, live)
  {
    hide FastOk, Chained, FastNext, IsChain, Unlinked;
    SettledEnds(g);
    ChainedInDisk(g, i, j);
    var img := FastNext(g.d, g.s[i], g.s[j]).per;
    forall t ensures !ReplaysAlong(img, t, live) {
      BehindLoops(g.d.per.chunks, g.s, g.d.per.roots[g.d.per.alt], i, j, t);
    }
  }

  lemma SettledEnds(g: Fast)
    requires FastOk(g) && Chained(g)
    ensures DiskOk(g.d) && IsChain(g.d.per.chunks, g.s, g.d.per.roots[g.d.per.alt]) && Distinct(g.s)
    ensures forall a :: a in g.s ==> a in g.d.per.chunks && a in g.d.vol.chunks && g.d.per.chunks[a] == g.d.vol.chunks[a]
  {
    ChainIsDistinct(g.d.per.chunks, g.s, g.d.per.roots[g.d.per.alt]);
  }

  lemma ChainedInDisk(g: Fast, i: nat, j: nat)
    requires DiskOk(g.d) && i < |g.s| && j < |g.s| && g.s[i] != g.s[j]
    requires forall a :: a in g.s ==> a in g.d.per.chunks && a in g.d.vol.chunks && g.d.per.chunks[a] == g.d.vol.chunks[a]
    ensures var m := FastNext(g.d, g.s[i], g.s[j]);
            && WellFormed(m.per) && m.per.chunks == Unlinked(g.d.per.chunks, g.s[i], g.s[j])
            && m.per.roots == g.d.per.roots && m.per.alt == g.d.per.alt
  {
    assert g.s[i] in g.s && g.s[j] in g.s;
  }

  /** Falling addresses: of two empty chunks x and y at positions i and i + 1, with y at the lower address,
      x leaves the chain and y stays in it. */
  lemma FallingChunkStays(g: Fast, i: nat)
    requires FastOk(g) && Healthy(g) && 0 < i && i + 1 < |g.s| && Empties(g.tree) == {g.s[i], g.s[i + 1]} && g.s[i] > g.s[i + 1]
    ensures g.slot < |g.d.vol.roots|
    ensures var x, y := g.s[i], g.s[i + 1];
      && x in g.d.vol.chunks && x in g.d.per.chunks && g.s[i - 1] in g.d.vol.chunks && g.s[i - 1] in g.d.per.chunks
      && var d1 := FastNext(g.d, x, g.s[i - 1]);
         && y in d1.vol.chunks && y in d1.per.chunks && x in d1.vol.chunks && x in d1.per.chunks
         && IsChain(FastNext(d1, y, x).vol.chunks, g.s[..i] + g.s[i + 1..], g.d.vol.roots[g.slot])
  {
    hide FastOk, Chained, Empties, FastNext, Unlinking, IsChain, Distinct;
    ChainedEnds(g);
    var x, y, root := g.s[i], g.s[i + 1], g.d.vol.roots[g.slot];
    assert x in Empties(g.tree) && y in Empties(g.tree);
    assert g.tree[x].pre == g.s[i - 1] && g.tree[y].pre == x;
    UnlinkStart(g);
    UnlinkOne(g, {}, g.d, x);
    assert {} + {x} == {x};
    var d1 := FastNext(g.d, x, g.s[i - 1]);
    UnlinkOne(g, {x}, d1, y);
    FastUnlinks(g.d, x, g.s[i - 1]);
    FastUnlinks(d1, y, x);
    UnlinkedIsChain(g.d.vol.chunks, g.s, root, i - 1);
    var t := g.s[..i] + g.s[i + 1..];
    assert g.s[..i - 1 + 1] + g.s[i - 1 + 2..] == t;
    DroppedAway(g.s, i);
    SameWalk(d1.vol.chunks, t, root, y, x);
  }

  lemma DroppedAway(s: seq<nat>, i: nat)
    requires Distinct(s) && i < |s|
    ensures s[i] !in s[..i] + s[i + 1..]
  {
    var t := s[..i] + s[i + 1..];
    assert forall k :: 0 <= k < |t| ==> t[k] == s[if k < i then k else k + 1];
  }
}
