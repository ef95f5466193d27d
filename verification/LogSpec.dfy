/** The values of src/log.c: items, chunks, which items are live, and what appending an item or a
    chunk does to them. */
module LogSpec {
  const CHUNK_SIZE := 1024
  const HEADER_SIZE := 16
  const ITEM_SIZE := 8
  /** Items per chunk, and validity bits per chunk: two words of 64. */
  const ITEMS := 126
  const BITS := 128
  /** Items that a chunk takes before a new chunk is opened. */
  const TAKES := 100

  // ---------------------------------------------------------------------------------------
  // Interleaved slots
  // ---------------------------------------------------------------------------------------

  /** count_to_index, with 8 items per bank (64 / sizeof(size_t)) and 6 banks. */
  function CountToIndex(count: nat): nat {
    count / 48 * 48 + count % 6 * 8 + count % 48 / 6
  }

  function IndexToCount(index: nat): nat {
    index / 48 * 48 + index % 8 * 6 + index % 48 / 8
  }

  lemma By48(q: nat, r: nat)
    requires r < 48
    ensures (48 * q + r) / 48 == q && (48 * q + r) % 48 == r
  {
  }

  lemma By6(q: nat, r: nat)
    requires r < 6
    ensures (6 * q + r) / 6 == q && (6 * q + r) % 6 == r
  {
  }

  lemma By8(q: nat, r: nat)
    requires r < 8
    ensures (8 * q + r) / 8 == q && (8 * q + r) % 8 == r
  {
  }

  lemma CountDigits(q: nat, x: nat, y: nat)
    requires x < 6 && y < 8
    ensures CountToIndex(48 * q + 6 * y + x) == 48 * q + 8 * x + y
  {
    var c := 48 * q + 6 * y + x;
    By48(q, 6 * y + x);
    By6(y, x);
    By6(8 * q + y, x);
    assert c == 48 * q + (6 * y + x) && c == 6 * (8 * q + y) + x;
  }

  lemma IndexDigits(q: nat, x: nat, y: nat)
    requires x < 6 && y < 8
    ensures IndexToCount(48 * q + 8 * x + y) == 48 * q + 6 * y + x
  {
    var i := 48 * q + 8 * x + y;
    By48(q, 8 * x + y);
    By8(x, y);
    By8(6 * q + x, y);
    assert i == 48 * q + (8 * x + y) && i == 8 * (6 * q + x) + y;
  }

  /** The slots are a permutation of the counts. */
  lemma CountIndexRoundTrip(n: nat)
    ensures IndexToCount(CountToIndex(n)) == n && CountToIndex(IndexToCount(n)) == n
  {
    hide CountToIndex, IndexToCount;
    var q, r := n / 48, n % 48;
    assert n == 48 * q + 6 * (r / 6) + r % 6;
    CountDigits(q, r % 6, r / 6);
    IndexDigits(q, r % 6, r / 6);
    assert n == 48 * q + 8 * (r / 8) + r % 8;
    IndexDigits(q, r / 8, r % 8);
    CountDigits(q, r / 8, r % 8);
  }

  /** A chunk takes exactly its first 100 counts, each at a slot of its own. */
  lemma TakesHundred(count: nat)
    ensures count <= TAKES ==> (CountToIndex(count) < ITEMS <==> count < TAKES)
  {
  }

  lemma SlotsAreDistinct(m: nat, n: nat)
    requires m != n
    ensures CountToIndex(m) != CountToIndex(n)
  {
    CountIndexRoundTrip(m);
    CountIndexRoundTrip(n);
  }

  // ---------------------------------------------------------------------------------------
  // Addresses
  // ---------------------------------------------------------------------------------------

  /** ptr2lchunk and ptr2lindex; the subtraction wraps around below zero in 64 bits. */
  function ChunkOf(ptr: nat): nat {
    ptr - ptr % CHUNK_SIZE
  }

  function IndexOf(ptr: nat, chunk: nat): nat {
    (ptr - chunk - HEADER_SIZE) % 0x1_0000_0000_0000_0000 / ITEM_SIZE
  }

  function ItemAddr(chunk: nat, index: nat): nat {
    chunk + HEADER_SIZE + index * ITEM_SIZE
  }

  predicate IsChunkAddr(a: nat) {
    a > 0 && a % CHUNK_SIZE == 0
  }

  lemma ItemAddrRoundTrip(chunk: nat, index: nat)
    requires IsChunkAddr(chunk) && index < ITEMS
    ensures ChunkOf(ItemAddr(chunk, index)) == chunk && IndexOf(ItemAddr(chunk, index), chunk) == index
  {
  }

  // ---------------------------------------------------------------------------------------
  // Items and chunks
  // ---------------------------------------------------------------------------------------

  datatype Kind = Normal | Free | File

  /** One 64-bit word: kind in 2 bits, ptr in 48, size in 14.  For a Free item, ptr is the address
      of the item it frees and size the id of that item's chunk. */
  datatype Item = Item(kind: Kind, ptr: nat, size: nat)

  const BLANK := Item(Normal, 0, 0)
  const PTR_LIMIT := 0x1_0000_0000_0000
  const SIZE_LIMIT := 0x4000

  /** The word as the bit-fields store it. */
  function Word(kind: Kind, ptr: nat, size: nat): Item {
    Item(kind, ptr % PTR_LIMIT, size % SIZE_LIMIT)
  }

  /** An address of 48 bits is kept; of a size, an id or a version the low 14 bits are. */
  lemma WordIs(kind: Kind, ptr: nat, size: nat)
    requires ptr < 0x1_0000_0000_0000
    ensures Word(kind, ptr, size) == Item(kind, ptr, size % 0x4000)
    ensures Word(kind, ptr, size).size == size <==> size < 0x4000
  {
  }

  /** A chunk of the log file: `next` is 0 at the end of the chain. */
  datatype Chunk = Chunk(next: nat, id: nat, items: seq<Item>)

  /** The volatile companion of a chunk. */
  datatype VChunk = VChunk(count: nat, bits: seq<bool>, id: nat, pre: nat)

  type Chunks = map<nat, Chunk>
  type Tree = map<nat, VChunk>

  ghost predicate Shaped(ch: Chunks, A: set<nat>) {
    forall a :: a in A ==> a in ch && IsChunkAddr(a) && |ch[a].items| == ITEMS
  }

  predicate Written(x: Item) {
    x.ptr != 0
  }

  predicate IsTombOf(x: Item, a: nat, i: nat, id: nat) {
    x == Item(Free, ItemAddr(a, i), id)
  }

  /** Some item in the chunks of A frees the item at (a, i). */
  ghost predicate Buried(ch: Chunks, A: set<nat>, a: nat, i: nat)
    requires Shaped(ch, A) && a in A
  {
    exists b, j :: b in A && 0 <= j < ITEMS && IsTombOf(ch[b].items[j], a, i, ch[a].id)
  }

  /** What replaying the chunks of A finds at (a, i): an allocation or a file that is not freed.
      The id 0 marks a free chunk. */
  ghost predicate Live(ch: Chunks, A: set<nat>, a: nat, i: nat)
    requires Shaped(ch, A) && a in A && i < ITEMS
  {
    var x := ch[a].items[i];
    ch[a].id != 0 && Written(x) && !x.kind.Free? && !Buried(ch, A, a, i)
  }

  ghost predicate LiveAs(ch: Chunks, A: set<nat>, a: nat, i: nat, x: Item)
    requires Shaped(ch, A)
  {
    a in A && i < ITEMS && Live(ch, A, a, i) && ch[a].items[i] == x
  }

  /** The live set: what a replay of the chunks of A recovers. */
  ghost function LiveSet(ch: Chunks, A: set<nat>): (s: set<Item>)
    requires Shaped(ch, A)
    ensures forall x :: x in s <==> exists a, i :: LiveAs(ch, A, a, i, x)
  {
    var s := set a: nat, i: nat | a in A && i < ITEMS && Live(ch, A, a, i) :: ch[a].items[i];
    assert forall x | x in s :: exists a, i :: LiveAs(ch, A, a, i, x) by {
      forall x | x in s ensures exists a, i :: LiveAs(ch, A, a, i, x) {
        var a: nat, i: nat :| a in A && i < ITEMS && Live(ch, A, a, i) && x == ch[a].items[i];
        assert LiveAs(ch, A, a, i, x);
      }
    }
    s
  }

  /** No two live items are equal. */
  ghost predicate NoTwins(ch: Chunks, A: set<nat>)
    requires Shaped(ch, A)
  {
    forall a, i, b, j, x :: LiveAs(ch, A, a, i, x) && LiveAs(ch, A, b, j, x) ==> a == b && i == j
  }

  // ---------------------------------------------------------------------------------------
  // Changing one item
  // ---------------------------------------------------------------------------------------

  function PutItem(ch: Chunks, a: nat, i: nat, x: Item): Chunks
    requires a in ch && i < |ch[a].items|
  {
    ch[a := ch[a].(items := ch[a].items[i := x])]
  }

  lemma PutItemShaped(ch: Chunks, A: set<nat>, t: nat, k: nat, x: Item)
    requires Shaped(ch, A) && t in A && k < ITEMS
    ensures Shaped(PutItem(ch, t, k, x), A)
    ensures forall a, i :: a in A && 0 <= i < ITEMS ==>
              PutItem(ch, t, k, x)[a].items[i] == if a == t && i == k then x else ch[a].items[i]
  {
  }

  /** A word that was never written freed nothing, so a new word there only adds graves. */
  lemma PutItemBuried(ch: Chunks, A: set<nat>, t: nat, k: nat, x: Item, a: nat, i: nat)
    requires Shaped(ch, A) && t in A && k < ITEMS && !Written(ch[t].items[k]) && a in A && i < ITEMS
    ensures Shaped(PutItem(ch, t, k, x), A)
    ensures Buried(PutItem(ch, t, k, x), A, a, i) <==> Buried(ch, A, a, i) || IsTombOf(x, a, i, ch[a].id)
  {
    var ch' := PutItem(ch, t, k, x);
    PutItemShaped(ch, A, t, k, x);
    if Buried(ch, A, a, i) {
      var b, j :| b in A && 0 <= j < ITEMS && IsTombOf(ch[b].items[j], a, i, ch[a].id);
      assert IsTombOf(ch'[b].items[j], a, i, ch'[a].id);
    }
    if IsTombOf(x, a, i, ch[a].id) {
      assert IsTombOf(ch'[t].items[k], a, i, ch'[a].id);
    }
    if Buried(ch', A, a, i) {
      var b, j :| b in A && 0 <= j < ITEMS && IsTombOf(ch'[b].items[j], a, i, ch'[a].id);
      if !(b == t && j == k) {
        assert IsTombOf(ch[b].items[j], a, i, ch[a].id);
      }
    }
  }

  /** An appended allocation or file joins the live set. */
  lemma AppendAlloc(ch: Chunks, A: set<nat>, t: nat, k: nat, x: Item)
    requires Shaped(ch, A) && t in A && k < ITEMS && !Written(ch[t].items[k]) && ch[t].id != 0
    requires Written(x) && !x.kind.Free? && !Buried(ch, A, t, k)
    ensures Shaped(PutItem(ch, t, k, x), A)
    ensures forall a, i :: a in A && 0 <= i < ITEMS ==>
              (Live(PutItem(ch, t, k, x), A, a, i) <==> (a == t && i == k) || Live(ch, A, a, i))
    ensures LiveSet(PutItem(ch, t, k, x), A) == LiveSet(ch, A) + {x}
  {
    var ch' := PutItem(ch, t, k, x);
    PutItemShaped(ch, A, t, k, x);
    forall a, i | a in A && 0 <= i < ITEMS
      ensures Live(ch', A, a, i) <==> (a == t && i == k) || Live(ch, A, a, i)
    {
      PutItemBuried(ch, A, t, k, x, a, i);
    }
    assert LiveAs(ch', A, t, k, x);
    forall y | y in LiveSet(ch, A) ensures y in LiveSet(ch', A) {
      var a, i :| LiveAs(ch, A, a, i, y);
      assert LiveAs(ch', A, a, i, y);
    }
    forall y | y in LiveSet(ch', A) ensures y in LiveSet(ch, A) + {x} {
      var a, i :| LiveAs(ch', A, a, i, y);
      assert (a == t && i == k) || LiveAs(ch, A, a, i, y);
    }
  }

  /** An appended Free item takes exactly the item it names out of the live set. */
  lemma AppendFree(ch: Chunks, A: set<nat>, t: nat, k: nat, x: Item, a0: nat, i0: nat)
    requires Shaped(ch, A) && t in A && k < ITEMS && !Written(ch[t].items[k])
    requires x.kind.Free? && a0 in A && i0 < ITEMS && x.ptr == ItemAddr(a0, i0)
    ensures Shaped(PutItem(ch, t, k, x), A)
    ensures forall a, i :: a in A && 0 <= i < ITEMS ==>
              (Live(PutItem(ch, t, k, x), A, a, i)
               <==> Live(ch, A, a, i) && !(a == a0 && i == i0 && x.size == ch[a0].id))
  {
    var ch' := PutItem(ch, t, k, x);
    PutItemShaped(ch, A, t, k, x);
    forall a, i | a in A && 0 <= i < ITEMS
      ensures Live(ch', A, a, i) <==> Live(ch, A, a, i) && !(a == a0 && i == i0 && x.size == ch[a0].id)
    {
      PutItemBuried(ch, A, t, k, x, a, i);
      ItemAddrRoundTrip(a, i);
      ItemAddrRoundTrip(a0, i0);
    }
  }

  /** The live set after a Free item: it loses the item if and only if the recorded version is the
      id of the item's chunk. */
  lemma FreedLiveSet(ch: Chunks, A: set<nat>, t: nat, k: nat, x: Item, a0: nat, i0: nat)
    requires Shaped(ch, A) && t in A && k < ITEMS && !Written(ch[t].items[k])
    requires x.kind.Free? && a0 in A && i0 < ITEMS && x.ptr == ItemAddr(a0, i0)
    requires Live(ch, A, a0, i0) && NoTwins(ch, A)
    ensures Shaped(PutItem(ch, t, k, x), A)
    ensures LiveSet(PutItem(ch, t, k, x), A)
         == if x.size == ch[a0].id then LiveSet(ch, A) - {ch[a0].items[i0]} else LiveSet(ch, A)
    ensures ch[a0].items[i0] in LiveSet(ch, A)
  {
    var ch', x0 := PutItem(ch, t, k, x), ch[a0].items[i0];
    AppendFree(ch, A, t, k, x, a0, i0);
    PutItemShaped(ch, A, t, k, x);
    assert LiveAs(ch, A, a0, i0, x0);
    forall y | y in LiveSet(ch, A) && !(y == x0 && x.size == ch[a0].id) ensures y in LiveSet(ch', A) {
      var a, i :| LiveAs(ch, A, a, i, y);
      assert LiveAs(ch', A, a, i, y);
    }
    forall y | y in LiveSet(ch', A) ensures y in LiveSet(ch, A) && !(y == x0 && x.size == ch[a0].id) {
      var a, i :| LiveAs(ch', A, a, i, y);
      assert LiveAs(ch, A, a, i, y);
    }
  }

  // ---------------------------------------------------------------------------------------
  // Changing the set of chunks
  // ---------------------------------------------------------------------------------------

  ghost predicate SameItems(ch: Chunks, ch': Chunks, A: set<nat>) {
    forall a :: a in A && a in ch ==> a in ch' && ch'[a].items == ch[a].items && ch'[a].id == ch[a].id
  }

  /** The links between chunks do not matter to what is live. */
  lemma LiveSame(ch: Chunks, ch': Chunks, A: set<nat>)
    requires Shaped(ch, A) && SameItems(ch, ch', A)
    ensures Shaped(ch', A)
    ensures forall a, i :: a in A && 0 <= i < ITEMS ==> (Buried(ch', A, a, i) <==> Buried(ch, A, a, i))
    ensures forall a, i :: a in A && 0 <= i < ITEMS ==> (Live(ch', A, a, i) <==> Live(ch, A, a, i))
    ensures LiveSet(ch', A) == LiveSet(ch, A)
  {
    forall a, i | a in A && 0 <= i < ITEMS ensures Buried(ch', A, a, i) <==> Buried(ch, A, a, i) {
      if Buried(ch, A, a, i) {
        var b, j :| b in A && 0 <= j < ITEMS && IsTombOf(ch[b].items[j], a, i, ch[a].id);
        assert IsTombOf(ch'[b].items[j], a, i, ch'[a].id);
      }
      if Buried(ch', A, a, i) {
        var b, j :| b in A && 0 <= j < ITEMS && IsTombOf(ch'[b].items[j], a, i, ch'[a].id);
        assert IsTombOf(ch[b].items[j], a, i, ch[a].id);
      }
    }
    SameLiveSet(ch, A, ch', A);
  }

  lemma SameLiveSet(ch: Chunks, A: set<nat>, ch': Chunks, A': set<nat>)
    requires Shaped(ch, A) && Shaped(ch', A')
    requires forall a, i, x :: LiveAs(ch, A, a, i, x) <==> LiveAs(ch', A', a, i, x)
    ensures LiveSet(ch, A) == LiveSet(ch', A')
  {
    forall x | x in LiveSet(ch, A) ensures x in LiveSet(ch', A') {
      var a, i :| LiveAs(ch, A, a, i, x);
      assert LiveAs(ch', A', a, i, x);
    }
    forall x | x in LiveSet(ch', A') ensures x in LiveSet(ch, A) {
      var a, i :| LiveAs(ch', A', a, i, x);
      assert LiveAs(ch, A, a, i, x);
    }
  }

  /** No item of the chunk is live or frees another. */
  ghost predicate Dead(ch: Chunks, A: set<nat>, a: nat)
    requires Shaped(ch, A) && a in A
  {
    forall i :: 0 <= i < ITEMS ==> !Live(ch, A, a, i) && !(Written(ch[a].items[i]) && ch[a].items[i].kind.Free?)
  }

  /** Chunks without live items and without Free items can be left out. */
  lemma WithoutDead(ch: Chunks, A: set<nat>, A': set<nat>)
    requires Shaped(ch, A) && A' <= A && forall a :: a in A - A' ==> Dead(ch, A, a)
    ensures forall a, i :: a in A' && 0 <= i < ITEMS ==> (Buried(ch, A', a, i) <==> Buried(ch, A, a, i))
    ensures forall a, i :: a in A' && 0 <= i < ITEMS ==> (Live(ch, A', a, i) <==> Live(ch, A, a, i))
    ensures LiveSet(ch, A') == LiveSet(ch, A)
  {
    forall a, i | a in A' && 0 <= i < ITEMS ensures Buried(ch, A', a, i) <==> Buried(ch, A, a, i) {
      if Buried(ch, A, a, i) {
        var b, j :| b in A && 0 <= j < ITEMS && IsTombOf(ch[b].items[j], a, i, ch[a].id);
        assert Written(ch[b].items[j]);
        assert b in A - A' ==> Dead(ch, A, b);
        assert IsTombOf(ch[b].items[j], a, i, ch[a].id);
      }
    }
    forall a, i, x ensures LiveAs(ch, A, a, i, x) <==> LiveAs(ch, A', a, i, x) {
      assert a in A - A' ==> Dead(ch, A, a);
    }
    SameLiveSet(ch, A, ch, A');
  }

  /** Without the dead chunks of E, and with other links, the same items are live. */
  lemma LiveWithout(ch: Chunks, ch': Chunks, A: set<nat>, A': set<nat>, E: set<nat>)
    requires Shaped(ch, A) && A' == A - E && SameItems(ch, ch', A') && forall a :: a in E && a in A ==> Dead(ch, A, a)
    ensures Shaped(ch', A') && LiveSet(ch', A') == LiveSet(ch, A)
    ensures forall a, i, x :: LiveAs(ch, A, a, i, x) <==> LiveAs(ch', A', a, i, x)
  {
    hide LiveSet;
    WithoutDead(ch, A, A');
    LiveSame(ch, ch', A');
    forall a: nat, i: nat, x: Item ensures LiveAs(ch, A, a, i, x) <==> LiveAs(ch', A', a, i, x) {
      assert a in E && a in A ==> Dead(ch, A, a);
    }
  }

  /** A chunk without written items. */
  ghost predicate Empty(c: Chunk) {
    |c.items| == ITEMS && forall i :: 0 <= i < ITEMS ==> !Written(c.items[i])
  }

  lemma EmptyIsDead(ch: Chunks, A: set<nat>, n: nat)
    requires Shaped(ch, A) && n in A && Empty(ch[n])
    ensures Dead(ch, A, n)
  {
  }
}
