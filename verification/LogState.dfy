/** The volatile index of the log of src/log.c: what the validity bits of the chunks in the tree
    mean, and which steps keep that meaning. */
module LogState {
  import opened LogSpec
  import opened LogCrash

  /** The bit of item (a, i): a Free item keeps its own bit, any other item while it is live. */
  ghost predicate Counts(ch: Chunks, A: set<nat>, a: nat, i: nat)
    requires Shaped(ch, A) && a in A
  {
    i < ITEMS && Written(ch[a].items[i]) && (ch[a].items[i].kind.Free? || Live(ch, A, a, i))
  }

  ghost predicate ChunkOk(ch: Chunks, tree: Tree, nextId: nat, a: nat)
    requires Shaped(ch, tree.Keys) && a in tree
  {
    && 0 < ch[a].id < nextId && tree[a].id == ch[a].id && tree[a].count <= TAKES && |tree[a].bits| == BITS
    && WrittenUpTo(ch[a].items, tree[a].count) && BitsOk(ch, tree.Keys, a, tree[a].bits)
  }

  ghost predicate WrittenUpTo(items: seq<Item>, count: nat)
    requires |items| == ITEMS
  {
    forall i :: 0 <= i < ITEMS ==> (Written(items[i]) <==> IndexToCount(i) < count) && (Written(items[i]) || items[i] == BLANK)
  }

  ghost predicate BitsOk(ch: Chunks, A: set<nat>, a: nat, bits: seq<bool>)
    requires Shaped(ch, A) && a in A && |bits| == BITS
  {
    forall i :: 0 <= i < BITS ==> (bits[i] <==> Counts(ch, A, a, i))
  }

  /** Tombstones are older than the next chunk, and none names a slot before it is written. */
  ghost predicate GravesOk(ch: Chunks, A: set<nat>, nextId: nat)
    requires Shaped(ch, A)
  {
    && (forall a, i :: a in A && 0 <= i < ITEMS && ch[a].items[i].kind.Free? ==> ch[a].items[i].size < nextId)
    && (forall a, i :: a in A && 0 <= i < ITEMS && !Written(ch[a].items[i]) ==> !Buried(ch, A, a, i))
  }

  ghost predicate Tracked(ch: Chunks, tree: Tree, nextId: nat) {
    && Shaped(ch, tree.Keys) && GravesOk(ch, tree.Keys, nextId)
    && forall a :: a in tree ==> ChunkOk(ch, tree, nextId, a)
  }

  // ---------------------------------------------------------------------------------------
  // Appending an item
  // ---------------------------------------------------------------------------------------

  function Counted(tree: Tree, t: nat, k: nat): Tree
    requires t in tree && k < |tree[t].bits|
  {
    tree[t := tree[t].(count := tree[t].count + 1, bits := tree[t].bits[k := true])]
  }

  function Cleared(tree: Tree, a: nat, i: nat): Tree
    requires a in tree && i < |tree[a].bits|
  {
    tree[a := tree[a].(bits := tree[a].bits[i := false])]
  }

  /** The next slot of chunk t. */
  function NextSlot(tree: Tree, t: nat): nat
    requires t in tree
  {
    CountToIndex(tree[t].count)
  }

  lemma NextSlotIsFree(ch: Chunks, tree: Tree, nextId: nat, t: nat)
    requires Tracked(ch, tree, nextId) && t in tree && NextSlot(tree, t) < ITEMS
    ensures var k := NextSlot(tree, t);
            tree[t].count < TAKES && ch[t].items[k] == BLANK && !Buried(ch, tree.Keys, t, k) && ChunkOk(ch, tree, nextId, t)
  {
    TakesHundred(tree[t].count);
    CountIndexRoundTrip(tree[t].count);
  }

  lemma WrittenNext(items: seq<Item>, count: nat, x: Item)
    requires |items| == ITEMS && WrittenUpTo(items, count) && CountToIndex(count) < ITEMS && Written(x)
    ensures WrittenUpTo(items[CountToIndex(count) := x], count + 1)
  {
    CountIndexRoundTrip(count);
    forall i | 0 <= i < ITEMS ensures IndexToCount(i) == count ==> i == CountToIndex(count) {
      CountIndexRoundTrip(i);
    }
  }

  /** Which items are live after x is put at (t, k): the same, except the item it frees, if any,
      and itself unless it is a Free item. */
  ghost predicate LiveChange(ch: Chunks, ch': Chunks, A: set<nat>, t: nat, k: nat, x: Item, freed: set<(nat, nat)>)
    requires Shaped(ch, A) && Shaped(ch', A)
  {
    forall a, i :: a in A && 0 <= i < ITEMS ==>
      (Live(ch', A, a, i) <==> (Live(ch, A, a, i) && (a, i) !in freed) || (a == t && i == k && !x.kind.Free?))
  }

  /** The bits of a chunk follow the change. */
  lemma BitsNext(ch: Chunks, A: set<nat>, t: nat, k: nat, x: Item, freed: set<(nat, nat)>, a: nat, bits: seq<bool>, bits': seq<bool>)
    requires Shaped(ch, A) && t in A && k < ITEMS && !Written(ch[t].items[k]) && Written(x)
    requires Shaped(PutItem(ch, t, k, x), A) && LiveChange(ch, PutItem(ch, t, k, x), A, t, k, x, freed)
    requires a in A && |bits| == |bits'| == BITS && BitsOk(ch, A, a, bits)
    requires forall i :: 0 <= i < ITEMS && (a, i) in freed ==> Live(ch, A, a, i)
    requires forall i :: 0 <= i < BITS ==> (bits'[i] <==> (bits[i] && (a, i) !in freed) || (a == t && i == k))
    requires forall i :: ITEMS <= i < BITS ==> (a, i) !in freed
    ensures BitsOk(PutItem(ch, t, k, x), A, a, bits')
  {
    PutItemShaped(ch, A, t, k, x);
    forall i | 0 <= i < BITS ensures bits'[i] <==> Counts(PutItem(ch, t, k, x), A, a, i) {
      assert bits[i] <==> Counts(ch, A, a, i);
    }
  }

  /** The tree after the change. */
  function Changed(tree: Tree, t: nat, k: nat, freed: set<(nat, nat)>): Tree
    requires t in tree
  {
    map a | a in tree ::
      tree[a].(count := tree[a].count + if a == t then 1 else 0,
               bits := seq(|tree[a].bits|, i requires 0 <= i < |tree[a].bits| =>
                 (tree[a].bits[i] && (a, i) !in freed) || (a == t && i == k)))
  }

  lemma ChangedKeeps(ch: Chunks, tree: Tree, nextId: nat, t: nat, k: nat, x: Item, freed: set<(nat, nat)>)
    requires Tracked(ch, tree, nextId) && t in tree && k == NextSlot(tree, t) < ITEMS
    requires Written(x) && Shaped(PutItem(ch, t, k, x), tree.Keys) && GravesOk(PutItem(ch, t, k, x), tree.Keys, nextId)
    requires LiveChange(ch, PutItem(ch, t, k, x), tree.Keys, t, k, x, freed)
    requires forall a, i :: (a, i) in freed ==> a in tree && i < ITEMS && Live(ch, tree.Keys, a, i)
    ensures Tracked(PutItem(ch, t, k, x), Changed(tree, t, k, freed), nextId)
  {
    var ch', tree' := PutItem(ch, t, k, x), Changed(tree, t, k, freed);
    assert tree'.Keys == tree.Keys;
    NextSlotIsFree(ch, tree, nextId, t);
    WrittenNext(ch[t].items, tree[t].count, x);
    forall a | a in tree' ensures ChunkOk(ch', tree', nextId, a) {
      ChangedChunk(ch, tree, nextId, t, k, x, freed, a);
    }
  }

  lemma ChangedChunk(ch: Chunks, tree: Tree, nextId: nat, t: nat, k: nat, x: Item, freed: set<(nat, nat)>, a: nat)
    requires Tracked(ch, tree, nextId) && t in tree && k == NextSlot(tree, t) < ITEMS && a in tree
    requires Written(x) && Shaped(PutItem(ch, t, k, x), tree.Keys) && !Written(ch[t].items[k])
    requires LiveChange(ch, PutItem(ch, t, k, x), tree.Keys, t, k, x, freed)
    requires forall a, i :: (a, i) in freed ==> a in tree && i < ITEMS && Live(ch, tree.Keys, a, i)
    requires tree[t].count < TAKES && WrittenUpTo(ch[t].items[k := x], tree[t].count + 1)
    requires Changed(tree, t, k, freed).Keys == tree.Keys
    ensures ChunkOk(PutItem(ch, t, k, x), Changed(tree, t, k, freed), nextId, a)
  {
    assert ChunkOk(ch, tree, nextId, a);
    BitsNext(ch, tree.Keys, t, k, x, freed, a, tree[a].bits, Changed(tree, t, k, freed)[a].bits);
  }

  lemma GravesNext(ch: Chunks, A: set<nat>, nextId: nat, t: nat, k: nat, x: Item)
    requires Shaped(ch, A) && GravesOk(ch, A, nextId) && t in A && k < ITEMS && !Written(ch[t].items[k])
    requires x.kind.Free? ==>
               && x.size < nextId
               && forall a, i :: a in A && 0 <= i < ITEMS && x.ptr == ItemAddr(a, i) ==> Written(ch[a].items[i])
    requires Written(x) && Shaped(PutItem(ch, t, k, x), A)
    ensures GravesOk(PutItem(ch, t, k, x), A, nextId)
  {
    var ch' := PutItem(ch, t, k, x);
    PutItemShaped(ch, A, t, k, x);
    forall a, i | a in A && 0 <= i < ITEMS && !Written(ch'[a].items[i]) ensures !Buried(ch', A, a, i) {
      PutItemBuried(ch, A, t, k, x, a, i);
    }
  }

  /** An allocation or a file is appended and its bit set. */
  lemma AppendKeeps(ch: Chunks, tree: Tree, nextId: nat, t: nat, x: Item)
    requires Tracked(ch, tree, nextId) && t in tree && NextSlot(tree, t) < ITEMS
    requires Written(x) && !x.kind.Free?
    ensures var k := NextSlot(tree, t);
            && k < |tree[t].bits| && Tracked(PutItem(ch, t, k, x), Counted(tree, t, k), nextId)
            && LiveSet(PutItem(ch, t, k, x), tree.Keys) == LiveSet(ch, tree.Keys) + {x}
  {
    var k, A := NextSlot(tree, t), tree.Keys;
    NextSlotIsFree(ch, tree, nextId, t);
    AppendAlloc(ch, A, t, k, x);
    GravesNext(ch, A, nextId, t, k, x);
    ChangedKeeps(ch, tree, nextId, t, k, x, {});
    CountedIsChanged(tree, t, k);
  }

  lemma CountedIsChanged(tree: Tree, t: nat, k: nat)
    requires t in tree && k < |tree[t].bits|
    ensures Counted(tree, t, k) == Changed(tree, t, k, {})
  {
    var tree', tree'' := Counted(tree, t, k), Changed(tree, t, k, {});
    forall a | a in tree ensures tree'[a] == tree''[a] {
      assert tree'[a].bits == tree''[a].bits;
    }
    assert tree'.Keys == tree''.Keys;
  }

  lemma ClearedIsChanged(tree: Tree, t: nat, k: nat, a0: nat, i0: nat)
    requires t in tree && k < |tree[t].bits| && a0 in tree && i0 < |tree[a0].bits| && !(a0 == t && i0 == k)
    ensures k < |Cleared(tree, a0, i0)[t].bits|
    ensures Counted(Cleared(tree, a0, i0), t, k) == Changed(tree, t, k, {(a0, i0)})
  {
    var tree', tree'' := Counted(Cleared(tree, a0, i0), t, k), Changed(tree, t, k, {(a0, i0)});
    forall a | a in tree ensures tree'[a] == tree''[a] {
      assert tree'[a].bits == tree''[a].bits;
    }
    assert tree'.Keys == tree''.Keys;
  }

  /** A Free item for (a0, i0) is appended, the bit of (a0, i0) cleared, its own bit set. */
  lemma FreeKeeps(ch: Chunks, tree: Tree, nextId: nat, t: nat, x: Item, a0: nat, i0: nat)
    requires Tracked(ch, tree, nextId) && t in tree && NextSlot(tree, t) < ITEMS
    requires a0 in tree && i0 < ITEMS && Live(ch, tree.Keys, a0, i0) && x == Item(Free, ItemAddr(a0, i0), ch[a0].id)
    ensures var k := NextSlot(tree, t);
            && i0 < |tree[a0].bits| && k < |Cleared(tree, a0, i0)[t].bits|
            && Tracked(PutItem(ch, t, k, x), Counted(Cleared(tree, a0, i0), t, k), nextId)
  {
    var k, A := NextSlot(tree, t), tree.Keys;
    NextSlotIsFree(ch, tree, nextId, t);
    AppendFree(ch, A, t, k, x, a0, i0);
    assert ChunkOk(ch, tree, nextId, a0);
    forall a, i | a in A && 0 <= i < ITEMS && x.ptr == ItemAddr(a, i) ensures Written(ch[a].items[i]) {
      ItemAddrRoundTrip(a, i);
      ItemAddrRoundTrip(a0, i0);
    }
    GravesNext(ch, A, nextId, t, k, x);
    ClearedIsChanged(tree, t, k, a0, i0);
    ChangedKeeps(ch, tree, nextId, t, k, x, {(a0, i0)});
  }

  // ---------------------------------------------------------------------------------------
  // Adding and dropping chunks
  // ---------------------------------------------------------------------------------------

  function NewChunk(id: nat): Chunk {
    Chunk(0, id, seq(ITEMS, _ => BLANK))
  }

  function NewVChunk(id: nat, pre: nat): VChunk {
    VChunk(0, seq(BITS, _ => false), id, pre)
  }

  /** A zeroed chunk with a new id joins the tree. */
  lemma AddChunkKeeps(ch: Chunks, tree: Tree, nextId: nat, n: nat, pre: nat)
    requires Tracked(ch, tree, nextId) && n !in tree && nextId > 0
    requires n in ch && IsChunkAddr(n) && ch[n] == NewChunk(nextId)
    ensures var tree' := tree[n := NewVChunk(nextId, pre)];
            && Tracked(ch, tree', nextId + 1) && LiveSet(ch, tree'.Keys) == LiveSet(ch, tree.Keys)
  {
    var tree' := tree[n := NewVChunk(nextId, pre)];
    var A, A' := tree.Keys, tree'.Keys;
    assert A' == A + {n};
    EmptyIsDead(ch, A', n);
    WithoutDead(ch, A', A);
    forall i | 0 <= i < ITEMS ensures !Buried(ch, A', n, i) {
    }
    forall a | a in tree' ensures ChunkOk(ch, tree', nextId + 1, a) {
      assert a != n ==> ChunkOk(ch, tree, nextId, a);
    }
  }

  /** The bits of a chunk in the tree are all clear exactly when it holds nothing that matters. */
  lemma EmptyBits(ch: Chunks, tree: Tree, nextId: nat, a: nat)
    requires Tracked(ch, tree, nextId) && a in tree
    ensures (forall i :: 0 <= i < BITS ==> !tree[a].bits[i]) <==> Dead(ch, tree.Keys, a)
  {
    assert ChunkOk(ch, tree, nextId, a);
    if Dead(ch, tree.Keys, a) {
      forall i | 0 <= i < BITS ensures !tree[a].bits[i] {
      }
    } else {
      var i :| 0 <= i < ITEMS && (Live(ch, tree.Keys, a, i) || (Written(ch[a].items[i]) && ch[a].items[i].kind.Free?));
      assert Counts(ch, tree.Keys, a, i) && tree[a].bits[i];
    }
  }

  /** Chunks whose bits are all clear leave the tree. */
  lemma DropKeeps(ch: Chunks, tree: Tree, nextId: nat, tree': Tree)
    requires Tracked(ch, tree, nextId) && tree'.Keys <= tree.Keys
    requires forall a :: a in tree' ==> tree'[a] == tree[a]
    requires forall a :: a in tree.Keys - tree'.Keys ==> Dead(ch, tree.Keys, a)
    ensures Tracked(ch, tree', nextId) && LiveSet(ch, tree'.Keys) == LiveSet(ch, tree.Keys)
  {
    WithoutDead(ch, tree.Keys, tree'.Keys);
    forall a | a in tree' ensures ChunkOk(ch, tree', nextId, a) {
      assert ChunkOk(ch, tree, nextId, a);
    }
  }

  /** Links, and chunks outside the tree, do not matter. */
  lemma LinksDoNotMatter(ch: Chunks, ch': Chunks, tree: Tree, nextId: nat)
    requires Tracked(ch, tree, nextId) && SameItems(ch, ch', tree.Keys)
    ensures Tracked(ch', tree, nextId) && LiveSet(ch', tree.Keys) == LiveSet(ch, tree.Keys)
  {
    LiveSame(ch, ch', tree.Keys);
    forall a | a in tree ensures ChunkOk(ch', tree, nextId, a) {
      assert ChunkOk(ch, tree, nextId, a);
    }
  }

  // ---------------------------------------------------------------------------------------
  // The chain
  // ---------------------------------------------------------------------------------------

  /** The tree holds the chunks of the chain from `root`. */
  ghost predicate Threaded(ch: Chunks, tree: Tree, tail: nat, root: nat, s: seq<nat>) {
    IsChain(ch, s, root) && |s| >= 2 && tail == s[|s| - 1] && Holding(s) == tree.Keys
  }

  /** Every chunk after the root knows the chunk before it. */
  ghost predicate TruePredecessors(tree: Tree, s: seq<nat>) {
    forall i :: 0 < i < |s| ==> s[i] in tree && tree[s[i]].pre == s[i - 1]
  }

  /** No chunk remembers a chunk that stands further ahead of it than the one right before it.  A chunk
      that has been collected may be linked again, but only behind. */
  ghost predicate PresNotBefore(tree: Tree, s: seq<nat>) {
    forall i :: 0 < i < |s| && s[i] in tree ==> tree[s[i]].pre !in s[..i - 1]
  }

  lemma TruePresNotBefore(ch: Chunks, tree: Tree, s: seq<nat>, root: nat)
    requires IsChain(ch, s, root) && TruePredecessors(tree, s)
    ensures PresNotBefore(tree, s)
  {
    hide IsChain, Distinct;
    ChainIsDistinct(ch, s, root);
    forall i | 0 < i < |s| && s[i] in tree ensures tree[s[i]].pre !in s[..i - 1] {
      NotAhead(s, i - 1);
    }
  }

  lemma NotAhead(s: seq<nat>, i: nat)
    requires Distinct(s) && i < |s|
    ensures s[i] !in s[..i]
  {
  }

  lemma ThreadChunk(ch: Chunks, tree: Tree, tail: nat, root: nat, s: seq<nat>, n: nat, v: VChunk)
    requires Threaded(ch, tree, tail, root, s)
    requires n in ch && n != 0 && n !in s && ch[n].next == 0 && v.pre == tail
    ensures Threaded(ch[tail := ch[tail].(next := n)], tree[n := v], n, root, s + [n])
    ensures TruePredecessors(tree, s) ==> TruePredecessors(tree[n := v], s + [n])
    ensures PresNotBefore(tree, s) ==> PresNotBefore(tree[n := v], s + [n])
  {
    hide TruePredecessors, PresNotBefore, Distinct, IsChain;
    ExtendChain(ch, root, s, n);
    HoldingMore(s, n);
    if TruePredecessors(tree, s) {
      ThreadPre(tree, s, n, v);
    }
    ChainIsDistinct(ch, s, root);
    if PresNotBefore(tree, s) {
      ThreadNotBefore(tree, s, n, v);
    }
  }

  lemma ThreadNotBefore(tree: Tree, s: seq<nat>, n: nat, v: VChunk)
    requires |s| >= 2 && Distinct(s) && v.pre == s[|s| - 1] && n !in s && PresNotBefore(tree, s)
    ensures PresNotBefore(tree[n := v], s + [n])
  {
    hide Distinct;
    var s' := s + [n];
    forall i | 0 < i < |s'| && s'[i] in tree[n := v] ensures tree[n := v][s'[i]].pre !in s'[..i - 1] {
      assert s'[..i - 1] == s[..i - 1];
      if i < |s| {
        assert s[i] in s && s'[i] == s[i];
      } else {
        NotAhead(s, |s| - 1);
      }
    }
  }

  lemma ThreadPre(tree: Tree, s: seq<nat>, n: nat, v: VChunk)
    requires |s| >= 2 && v.pre == s[|s| - 1] && n !in s && TruePredecessors(tree, s)
    ensures TruePredecessors(tree[n := v], s + [n])
  {
    var s' := s + [n];
    forall i | 0 < i < |s'| ensures s'[i] in tree[n := v] && tree[n := v][s'[i]].pre == s'[i - 1] {
      if i < |s| {
        assert s[i] in s;
      }
    }
  }

  lemma ExtendChain(ch: Chunks, root: nat, s: seq<nat>, n: nat)
    requires IsChain(ch, s, root) && n in ch && n != 0 && n !in s && ch[n].next == 0
    ensures var t := s[|s| - 1]; IsChain(ch[t := ch[t].(next := n)], s + [n], root)
  {
    var t, s' := s[|s| - 1], s + [n];
    var ch' := ch[t := ch[t].(next := n)];
    ChainIsDistinct(ch, s, root);
    forall i | 0 <= i < |s'| ensures s'[i] in ch' && s'[i] != 0 && ch'[s'[i]].next == After(s', i) {
      if i < |s| {
        assert s'[i] == s[i] && ch[s[i]].next == After(s, i);
      }
    }
  }
}
