/** What survives a crash of the log file of src/log.c, and what a replay then finds. */
module LogCrash {
  import opened LogSpec

  /** The log file: the selector `alt`, the two root chunks and the chunks. */
  datatype Image = Image(alt: nat, roots: seq<nat>, chunks: Chunks)

  /** The contents as the program sees them, and as far as they have certainly reached the
      persistent medium. */
  datatype Disk = Disk(vol: Image, per: Image)

  ghost predicate WellFormed(img: Image) {
    img.alt < 2 && |img.roots| == 2 && forall a :: a in img.chunks ==> |img.chunks[a].items| == ITEMS
  }

  ghost predicate SurvivesChunk(c: Chunk, p: Chunk, v: Chunk)
    requires |p.items| == |v.items| == ITEMS
  {
    && (c.next == p.next || c.next == v.next) && (c.id == p.id || c.id == v.id)
    && |c.items| == ITEMS
    && forall i :: 0 <= i < ITEMS ==> c.items[i] == p.items[i] || c.items[i] == v.items[i]
  }

  /** What a crash can leave: of every word, what was persisted or what was written since; the
      cache may write back any word early. */
  ghost predicate Survives(img: Image, d: Disk)
    requires WellFormed(d.vol) && WellFormed(d.per)
  {
    && (img.alt == d.per.alt || img.alt == d.vol.alt)
    && |img.roots| == 2
    && (forall k :: 0 <= k < 2 ==> img.roots[k] == d.per.roots[k] || img.roots[k] == d.vol.roots[k])
    && img.chunks.Keys == d.per.chunks.Keys == d.vol.chunks.Keys
    && forall a :: a in img.chunks ==> SurvivesChunk(img.chunks[a], d.per.chunks[a], d.vol.chunks[a])
  }

  // ---------------------------------------------------------------------------------------
  // Replay
  // ---------------------------------------------------------------------------------------

  function After(s: seq<nat>, i: nat): nat {
    if i + 1 < |s| then s[i + 1] else 0
  }

  /** s is the walk along the next pointers from `start` to the end. */
  ghost predicate IsChain(ch: Chunks, s: seq<nat>, start: nat) {
    && |s| > 0 && s[0] == start
    && forall i :: 0 <= i < |s| ==> s[i] in ch && s[i] != 0 && ch[s[i]].next == After(s, i)
  }

  /** The root chunk holds no items. */
  function Holding(s: seq<nat>): set<nat> {
    set i | 0 < i < |s| :: s[i]
  }

  lemma HoldingMore(s: seq<nat>, n: nat)
    requires |s| > 0
    ensures Holding(s + [n]) == Holding(s) + {n}
  {
    var s' := s + [n];
    assert s'[|s|] == n;
    forall a | a in Holding(s) + {n} ensures a in Holding(s') {
      if a in Holding(s) {
        var i :| 0 < i < |s| && s[i] == a;
        assert s'[i] == a;
      }
    }
  }

  /** The walk is determined by the chunks. */
  lemma ChainIsUnique(ch: Chunks, s: seq<nat>, s': seq<nat>, start: nat)
    requires IsChain(ch, s, start) && IsChain(ch, s', start)
    ensures s == s'
  {
    SamePrefix(ch, s, s', start, |s| - 1);
    SamePrefix(ch, s', s, start, |s'| - 1);
  }

  lemma {:induction false} SamePrefix(ch: Chunks, s: seq<nat>, s': seq<nat>, start: nat, n: nat)
    requires IsChain(ch, s, start) && IsChain(ch, s', start) && n < |s|
    ensures n < |s'| && forall i :: 0 <= i <= n ==> s'[i] == s[i]
  {
    if n > 0 {
      SamePrefix(ch, s, s', start, n - 1);
      assert ch[s[n - 1]].next == s[n] && s[n] != 0;
      assert ch[s'[n - 1]].next == if n < |s'| then s'[n] else 0;
    }
  }

  ghost predicate Distinct(s: seq<nat>) {
    forall i, j :: 0 <= i < j < |s| ==> s[i] != s[j]
  }

  lemma ChainSuffix(ch: Chunks, s: seq<nat>, start: nat, i: nat)
    requires IsChain(ch, s, start) && i < |s|
    ensures IsChain(ch, s[i..], s[i])
  {
    var t := s[i..];
    forall k | 0 <= k < |t| ensures t[k] in ch && t[k] != 0 && ch[t[k]].next == After(t, k) {
      assert t[k] == s[i + k] && After(t, k) == After(s, i + k);
    }
  }

  /** A walk that ends visits no chunk twice. */
  lemma ChainIsDistinct(ch: Chunks, s: seq<nat>, start: nat)
    requires IsChain(ch, s, start)
    ensures Distinct(s)
  {
    forall i, j | 0 <= i < j < |s| ensures s[i] != s[j] {
      if s[i] == s[j] {
        ChainSuffix(ch, s, start, i);
        ChainSuffix(ch, s, start, j);
        ChainIsUnique(ch, s[i..], s[j..], s[i]);
      }
    }
  }

  ghost predicate ReplaysAlong(img: Image, s: seq<nat>, live: set<Item>)
    requires WellFormed(img)
  {
    && IsChain(img.chunks, s, img.roots[img.alt]) && Shaped(img.chunks, Holding(s))
    && LiveSet(img.chunks, Holding(s)) == live
  }

  /** Recovery from the image finds the live set `live`. */
  ghost predicate Replays(img: Image, live: set<Item>)
    requires WellFormed(img)
  {
    exists s :: ReplaysAlong(img, s, live)
  }

  /** A replay has one outcome only. */
  lemma ReplayIsUnique(img: Image, live: set<Item>, live': set<Item>)
    requires WellFormed(img) && Replays(img, live) && Replays(img, live')
    ensures live == live'
  {
    var s :| ReplaysAlong(img, s, live);
    var s' :| ReplaysAlong(img, s', live');
    ChainIsUnique(img.chunks, s, s', img.roots[img.alt]);
  }

  /** Whatever survives a crash at d, replay finds one of the two live sets. */
  ghost predicate Recovers(d: Disk, before: set<Item>, after: set<Item>) {
    && WellFormed(d.vol) && WellFormed(d.per)
    && forall img :: Survives(img, d) ==> WellFormed(img) && (Replays(img, before) || Replays(img, after))
  }

  // ---------------------------------------------------------------------------------------
  // The moments of an operation
  // ---------------------------------------------------------------------------------------

  ghost predicate AgreeOn(ch: Chunks, ch': Chunks, s: seq<nat>) {
    forall a :: a in s ==> a in ch && a in ch' && ch[a] == ch'[a]
  }

  /** The log at `root` in the image: the chunks along s, all of them shaped. */
  ghost predicate IsLog(ch: Chunks, s: seq<nat>, root: nat) {
    IsChain(ch, s, root) && Shaped(ch, Holding(s))
  }

  lemma AgreeingReplays(img: Image, ch: Chunks, s: seq<nat>)
    requires WellFormed(img) && IsLog(ch, s, img.roots[img.alt]) && AgreeOn(img.chunks, ch, s)
    ensures Replays(img, LiveSet(ch, Holding(s)))
  {
    assert forall i :: 0 <= i < |s| ==> s[i] in s;
    LiveSame(ch, img.chunks, Holding(s));
    assert IsChain(img.chunks, s, img.roots[img.alt]);
    assert ReplaysAlong(img, s, LiveSet(ch, Holding(s)));
  }

  /** The selected log is the same in both views. */
  ghost predicate Settled(d: Disk, s: seq<nat>) {
    && WellFormed(d.vol) && WellFormed(d.per) && d.vol.chunks.Keys == d.per.chunks.Keys
    && d.vol.alt == d.per.alt && d.vol.roots[d.vol.alt] == d.per.roots[d.vol.alt]
    && IsLog(d.per.chunks, s, d.per.roots[d.per.alt])
    && AgreeOn(d.per.chunks, d.vol.chunks, s)
  }

  lemma SameSurvives(c: Chunk, p: Chunk, v: Chunk)
    requires |p.items| == |v.items| == ITEMS && SurvivesChunk(c, p, v) && p == v
    ensures c == p
  {
    assert c.items == p.items;
  }

  lemma SettledAgrees(img: Image, d: Disk, s: seq<nat>)
    requires Settled(d, s) && Survives(img, d)
    ensures AgreeOn(img.chunks, d.per.chunks, s) && img.roots[img.alt] == d.per.roots[d.per.alt]
  {
    forall a | a in s ensures a in img.chunks && img.chunks[a] == d.per.chunks[a] {
      SameSurvives(img.chunks[a], d.per.chunks[a], d.vol.chunks[a]);
    }
  }

  lemma SettledRecovers(d: Disk, s: seq<nat>)
    requires Settled(d, s)
    ensures var live := LiveSet(d.per.chunks, Holding(s)); Recovers(d, live, live)
  {
    forall img | Survives(img, d) ensures WellFormed(img) && Replays(img, LiveSet(d.per.chunks, Holding(s))) {
      SettledAgrees(img, d, s);
      AgreeingReplays(img, d.per.chunks, s);
    }
  }

  /** The link from the last chunk to a new, empty chunk n has been written but not persisted. */
  lemma LinkInFlight(d: Disk, d0: Disk, s: seq<nat>, n: nat)
    requires Settled(d0, s) && n in d0.per.chunks && d0.per.chunks[n] == d0.vol.chunks[n] && n !in s
    requires Empty(d0.per.chunks[n]) && d0.per.chunks[n].next == 0 && IsChunkAddr(n)
    requires var t := s[|s| - 1];
             d == d0.(vol := d0.vol.(chunks := d0.vol.chunks[t := d0.vol.chunks[t].(next := n)]))
    ensures var live := LiveSet(d0.per.chunks, Holding(s)); Recovers(d, live, live)
  {
    hide LiveSet, Survives, IsChain, Shaped, AgreeOn, Empty, Replays;
    SettledEnd(d0, s);
    var t := s[|s| - 1];
    var ch' := d0.per.chunks[t := d0.per.chunks[t].(next := n)];
    LinkedChain(d0.per.chunks, s, d0.per.roots[d0.per.alt], n);
    forall img | Survives(img, d) ensures WellFormed(img) && Replays(img, LiveSet(d0.per.chunks, Holding(s))) {
      LinkSurvives(d, d0, s, n, img);
      if AgreeOn(img.chunks, d0.per.chunks, s) {
        AgreeingReplays(img, d0.per.chunks, s);
      } else {
        AgreeingReplays(img, ch', s + [n]);
      }
    }
  }

  lemma SettledEnd(d: Disk, s: seq<nat>)
    requires Settled(d, s)
    ensures s != [] && s[|s| - 1] in d.vol.chunks && s[|s| - 1] in d.per.chunks
  {
  }

  lemma LinkSurvives(d: Disk, d0: Disk, s: seq<nat>, n: nat, img: Image)
    requires Settled(d0, s) && n in d0.per.chunks && d0.per.chunks[n] == d0.vol.chunks[n] && n !in s && s != []
    requires var t := s[|s| - 1];
             && t in d0.vol.chunks && t in d0.per.chunks
             && d == d0.(vol := d0.vol.(chunks := d0.vol.chunks[t := d0.vol.chunks[t].(next := n)]))
    requires WellFormed(d.vol) && WellFormed(d.per) && Survives(img, d)
    ensures WellFormed(img) && img.roots[img.alt] == d0.per.roots[d0.per.alt]
    ensures var t := s[|s| - 1]; var ch' := d0.per.chunks[t := d0.per.chunks[t].(next := n)];
            AgreeOn(img.chunks, d0.per.chunks, s) || AgreeOn(img.chunks, ch', s + [n])
  {
    hide IsLog;
    var t := s[|s| - 1];
    forall a | a in s + [n] && a != t ensures a in img.chunks && img.chunks[a] == d0.per.chunks[a] {
      SameSurvives(img.chunks[a], d.per.chunks[a], d.vol.chunks[a]);
    }
    assert t in s;
    var c, p := img.chunks[t], d0.per.chunks[t];
    assert c.items == p.items;
    assert c == p || c == p.(next := n);
  }

  /** A chain extended by an empty chunk: still a chain, with the same live set. */
  lemma LinkedChain(ch: Chunks, s: seq<nat>, root: nat, n: nat)
    requires IsLog(ch, s, root) && n in ch && n !in s
    requires Empty(ch[n]) && ch[n].next == 0 && IsChunkAddr(n)
    ensures var ch' := ch[s[|s| - 1] := ch[s[|s| - 1]].(next := n)];
            IsLog(ch', s + [n], root) && LiveSet(ch', Holding(s + [n])) == LiveSet(ch, Holding(s))
  {
    var t, s' := s[|s| - 1], s + [n];
    var ch' := ch[t := ch[t].(next := n)];
    ChainIsDistinct(ch, s, root);
    HoldingMore(s, n);
    LiveSame(ch, ch', Holding(s'));
    EmptyIsDead(ch, Holding(s'), n);
    WithoutDead(ch, Holding(s'), Holding(s));
  }

  /** The word of item k in chunk t of the chain has been written, perhaps repeatedly, but not
      persisted; everything else is settled. */
  lemma ItemInFlight(d: Disk, d0: Disk, s: seq<nat>, t: nat, k: nat, w: Item, x: Item)
    requires Settled(d0, s) && t in Holding(s) && k < ITEMS
    requires d.vol == d0.vol.(chunks := PutItem(d0.vol.chunks, t, k, x))
    requires d.per == d0.per.(chunks := PutItem(d0.per.chunks, t, k, w))
    ensures Shaped(PutItem(d0.per.chunks, t, k, w), Holding(s)) && Shaped(PutItem(d0.per.chunks, t, k, x), Holding(s))
    ensures Recovers(d, LiveSet(PutItem(d0.per.chunks, t, k, w), Holding(s)),
                        LiveSet(PutItem(d0.per.chunks, t, k, x), Holding(s)))
  {
    var ch0 := d0.per.chunks;
    PutItemLog(ch0, s, d0.per.roots[d0.per.alt], t, k, w);
    PutItemLog(ch0, s, d0.per.roots[d0.per.alt], t, k, x);
    forall img | Survives(img, d)
      ensures WellFormed(img)
      ensures Replays(img, LiveSet(PutItem(ch0, t, k, w), Holding(s))) || Replays(img, LiveSet(PutItem(ch0, t, k, x), Holding(s)))
    {
      var y := img.chunks[t].items[k];
      assert y == w || y == x;
      AgreesWithWord(img, d, d0, s, t, k, w, x);
      AgreeingReplays(img, PutItem(ch0, t, k, y), s);
    }
  }

  lemma PutItemLog(ch: Chunks, s: seq<nat>, root: nat, t: nat, k: nat, x: Item)
    requires IsLog(ch, s, root) && t in Holding(s) && k < ITEMS
    ensures IsLog(PutItem(ch, t, k, x), s, root)
  {
    PutItemShaped(ch, Holding(s), t, k, x);
    PutItemChain(ch, s, root, t, k, x);
  }

  lemma PutItemChain(ch: Chunks, s: seq<nat>, root: nat, t: nat, k: nat, x: Item)
    requires IsChain(ch, s, root) && t in ch && k < |ch[t].items|
    ensures IsChain(PutItem(ch, t, k, x), s, root)
  {
  }

  lemma AgreesWithWord(img: Image, d: Disk, d0: Disk, s: seq<nat>, t: nat, k: nat, w: Item, x: Item)
    requires Settled(d0, s) && t in Holding(s) && k < ITEMS
    requires d.vol == d0.vol.(chunks := PutItem(d0.vol.chunks, t, k, x))
    requires d.per == d0.per.(chunks := PutItem(d0.per.chunks, t, k, w))
    requires WellFormed(d.vol) && WellFormed(d.per) && Survives(img, d)
    ensures t in img.chunks && |img.chunks[t].items| == ITEMS
    ensures AgreeOn(img.chunks, PutItem(d0.per.chunks, t, k, img.chunks[t].items[k]), s)
    ensures img.roots[img.alt] == d0.per.roots[d0.per.alt]
  {
    var y := img.chunks[t].items[k];
    forall a | a in s ensures a in img.chunks && img.chunks[a] == PutItem(d0.per.chunks, t, k, y)[a] {
      if a == t {
        assert img.chunks[t].items == d0.per.chunks[t].items[k := y];
      } else {
        SameSurvives(img.chunks[a], d.per.chunks[a], d.vol.chunks[a]);
      }
    }
  }

  /** The selector has been flipped but not persisted, and both logs are settled and hold the
      same live set. */
  lemma FlipInFlight(d: Disk, s: seq<nat>, s': seq<nat>)
    requires Settled(d.(vol := d.vol.(alt := d.per.alt)), s)
    requires Settled(d.(per := d.per.(alt := d.vol.alt)), s')
    requires LiveSet(d.per.chunks, Holding(s)) == LiveSet(d.per.chunks, Holding(s'))
    ensures var live := LiveSet(d.per.chunks, Holding(s)); Recovers(d, live, live)
  {
    var live := LiveSet(d.per.chunks, Holding(s));
    var d1, d2 := d.(vol := d.vol.(alt := d.per.alt)), d.(per := d.per.(alt := d.vol.alt));
    SettledRecovers(d1, s);
    SettledRecovers(d2, s');
    forall img | Survives(img, d) ensures WellFormed(img) && Replays(img, live) {
      assert if img.alt == d.per.alt then Survives(img, d1) else Survives(img, d2);
    }
  }
}
