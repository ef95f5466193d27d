/** The counters LRU_len and morphing_len that decide when slab_get_one in src/slab.c looks for a slab
    to morph. */
module LruCounts {

  /** A slab on the LRU list: its taken slots and the slots of its class. */
  datatype Use = Use(nbits: nat, num: nat)

  /** At most 20% of the slots are taken. */
  predicate Low(u: Use) {
    5 * u.nbits <= u.num
  }

  /** The tests of update_arena_LRU_morphing_slab, of slab_free_small and of slab_get_one; the first two
      add a little against rounding. */
  predicate AtMostThreshold(n: nat, num: nat) {
    n as real <= 1.0 * num as real * 0.2 + 0.00001
  }

  predicate AtMostOnReturn(n: nat, num: nat) {
    n as real <= 1.0 * 0.2 * num as real + 0.0001
  }

  predicate MayMorph(n: nat, num: nat) {
    n as real <= 1.0 * 0.2 * num as real
  }

  /** All three tests ask the same. */
  lemma TestsAgree(n: nat, num: nat)
    ensures AtMostThreshold(n, num) <==> Low(Use(n, num))
    ensures AtMostOnReturn(n, num) <==> Low(Use(n, num))
    ensures MayMorph(n, num) <==> Low(Use(n, num))
  {
    assert 5 * n <= num ==> 5.0 * n as real <= num as real;
    assert 5 * n >= num + 1 ==> 5.0 * n as real >= num as real + 1.0;
  }

  function LowSlabs(lru: map<nat, Use>): set<nat> {
    set v | v in lru && Low(lru[v])
  }

  function One(b: bool): int {
    if b then 1 else 0
  }

  lemma SetCounts(lru: map<nat, Use>, v: nat, u: Use)
    ensures |lru[v := u]| == |lru| + One(v !in lru)
    ensures |LowSlabs(lru[v := u])| == |LowSlabs(lru)| + One(Low(u)) - One(v in lru && Low(lru[v]))
  {
    hide Low, LowSlabs;
    assert |lru[v := u]| == |lru| + One(v !in lru) by { KeysCount(lru, v, u); }
    LowWithout(lru, v);
    LowWithout(lru[v := u], v);
    LowElsewhere(lru, v, u);
  }

  lemma KeysCount(lru: map<nat, Use>, v: nat, u: Use)
    ensures |lru[v := u]| == |lru| + One(v !in lru)
  {
    assert lru[v := u].Keys == lru.Keys + {v};
  }

  lemma LowWithout(lru: map<nat, Use>, v: nat)
    ensures |LowSlabs(lru)| == |LowSlabs(lru) - {v}| + One(v in lru && Low(lru[v]))
  {
    hide Low;
    assert v in LowSlabs(lru) <==> v in lru && Low(lru[v]);
  }

  lemma LowElsewhere(lru: map<nat, Use>, v: nat, u: Use)
    ensures LowSlabs(lru[v := u]) - {v} == LowSlabs(lru) - {v}
  {
    hide Low;
  }

  lemma RemoveCounts(lru: map<nat, Use>, v: nat)
    requires v in lru
    ensures |lru - {v}| == |lru| - 1
    ensures |LowSlabs(lru - {v})| == |LowSlabs(lru)| - One(Low(lru[v]))
  {
    assert (lru - {v})[v := lru[v]] == lru;
    SetCounts(lru - {v}, v, lru[v]);
  }

  lemma EmptyIsLow(num: nat)
    ensures Low(Use(0, num))
  {
  }

  class Arena {
    var lru: map<nat, Use>
    var lruLen: int
    var morphingLen: int

    /** The counters count: the slabs on the list, and those of them that are at most 20% taken. */
    ghost predicate Valid()
      reads this
    {
      lruLen == |lru| && morphingLen == |LowSlabs(lru)|
    }

    constructor ()
      ensures Valid() && lru == map[]
    {
      lru, lruLen, morphingLen := map[], 0, 0;
    }

    /** update_arena_LRU_morphing_slab. */
    method Update(a: nat, b: nat, num: nat)
      modifies this`morphingLen
      ensures morphingLen == old(morphingLen) + One(Low(Use(b, num))) - One(Low(Use(a, num)))
    {
      hide AtMostThreshold, Low;
      TestsAgree(a, num);
      TestsAgree(b, num);
      if AtMostThreshold(a, num) && !AtMostThreshold(b, num) {
        morphingLen := morphingLen - 1;
      } else if !AtMostThreshold(a, num) && AtMostThreshold(b, num) {
        morphingLen := morphingLen + 1;
      }
    }

    /** slab_create. */
    method Create(v: nat, num: nat)
      requires Valid() && v !in lru
      modifies this
      ensures Valid() && lru == old(lru)[v := Use(0, num)]
    {
      hide Low, LowSlabs;
      SetCounts(lru, v, Use(0, num));
      EmptyIsLow(num);
      lru := lru[v := Use(0, num)];
      lruLen := lruLen + 1;
      morphingLen := morphingLen + 1;
    }

    /** slab_pop_one_cache on a slab without old blocks. */
    method Pop(v: nat)
      requires Valid() && v in lru
      modifies this
      ensures Valid() && lru == old(lru)[v := Use(old(lru)[v].nbits + 1, old(lru)[v].num)]
    {
      hide Low, LowSlabs;
      var u := lru[v];
      var u' := Use(u.nbits + 1, u.num);
      SetCounts(lru, v, u');
      lru := lru[v := u'];
      Update(u'.nbits - 1, u'.nbits, u'.num);
    }

    /** slab_free_small on a slab without old blocks: the slab leaves the list with its last block. */
    method Free(v: nat)
      requires Valid() && v in lru && lru[v].nbits > 0
      modifies this
      ensures Valid()
      ensures var u := old(lru)[v]; lru == if u.nbits == 1 then old(lru) - {v} else old(lru)[v := Use(u.nbits - 1, u.num)]
    {
      hide Low, LowSlabs;
      var u := lru[v];
      var u' := Use(u.nbits - 1, u.num);
      ghost var lru0 := lru;
      SetCounts(lru, v, u');
      lru := lru[v := u'];
      Update(u'.nbits + 1, u'.nbits, u'.num);
      if u'.nbits == 0 {
        RemoveCounts(lru, v);
        EmptyIsLow(u'.num);
        lru := lru - {v};
        assert lru == lru0 - {v};
        lruLen := lruLen - 1;
        morphingLen := morphingLen - 1;
      }
    }

    /** The test of slab_get_one. */
    method Test(v: nat) returns (may: bool)
      requires Valid() && v in lru
      ensures may <==> Low(lru[v])
    {
      TestsAgree(lru[v].nbits, lru[v].num);
      may := MayMorph(lru[v].nbits, lru[v].num);
    }

    /** slab_morphing re-cuts a slab with live blocks: it leaves the list.  Both counters go down, which is
        right because only low slabs come here. */
    method Cut(v: nat)
      requires Valid() && v in lru && Low(lru[v])
      modifies this
      ensures Valid() && lru == old(lru) - {v}
    {
      hide Low, LowSlabs;
      RemoveCounts(lru, v);
      lru := lru - {v};
      lruLen := lruLen - 1;
      morphingLen := morphingLen - 1;
    }

    /** slab_morphing on a slab without live blocks: it stays on the list as a slab of the new class. */
    method Renew(v: nat, num': nat)
      requires Valid() && v in lru && lru[v].nbits == 0
      modifies this`lru
      ensures Valid() && lru == old(lru)[v := Use(0, num')]
    {
      hide Low, LowSlabs;
      SetCounts(lru, v, Use(0, num'));
      EmptyIsLow(num');
      EmptyIsLow(lru[v].num);
      lru := lru[v := Use(0, num')];
    }

    /** The last old block of a morphed slab has been freed. */
    method Rejoin(v: nat, nbits: nat, num: nat)
      requires Valid() && v !in lru
      modifies this
      ensures Valid() && lru == old(lru)[v := Use(nbits, num)]
    {
      hide Low, LowSlabs, AtMostOnReturn;
      TestsAgree(nbits, num);
      SetCounts(lru, v, Use(nbits, num));
      lru := lru[v := Use(nbits, num)];
      lruLen := lruLen + 1;
      if AtMostOnReturn(nbits, num) {
        morphingLen := morphingLen + 1;
      }
    }
  }

  /** The assertion at the end of update_arena_LRU_morphing_slab. */
  lemma MorphingAtMostLru(a: Arena)
    requires a.Valid()
    ensures 0 <= a.morphingLen <= a.lruLen
  {
    SubsetSize(LowSlabs(a.lru), a.lru.Keys);
    KeysSize(a.lru);
  }

  lemma {:induction false} SubsetSize(s: set<nat>, t: set<nat>)
    requires s <= t
    ensures |s| <= |t|
  {
    if s != {} {
      var x :| x in s;
      SubsetSize(s - {x}, t - {x});
    }
  }

  lemma KeysSize(m: map<nat, Use>)
    ensures |m.Keys| == |m|
  {
  }
}
