/** The per-slot records of a slab -- bitmap, metadata bits and dmeta -- and when they agree. */
module SlabLayout {
  import opened SizeClasses

  /** dmeta_s: the volatile state of a slot and the number of old blocks over it. */
  datatype DMeta = DMeta(taken: bool, numB: nat)

  /** sb_table_s: one entry per old block; isFreed turns nonzero when the block is freed. */
  datatype SbEntry = SbEntry(bidB: nat, isFreed: nat)

  /** The records of one slot: `over` are the old blocks that overlap it. */
  predicate SlotOk(over: set<nat>, live: bool, cached: bool, free: bool, metaBit: bool, d: DMeta) {
    && d.numB == |over|
    && d.taken == metaBit == (over != {} || live)
    && free == (over == {} && !live && !cached)
  }

  /** bitmap_header.nbits: the number of zero bits. */
  function Taken(bits: seq<bool>): nat {
    if bits == [] then 0 else Taken(bits[..|bits| - 1]) + if bits[|bits| - 1] then 0 else 1
  }

  lemma {:induction false} TakenUpdate(bits: seq<bool>, k: nat, v: bool)
    requires k < |bits|
    ensures Taken(bits[k := v]) == Taken(bits) + (if bits[k] then 1 else 0) - (if v then 1 else 0)
  {
    var n := |bits| - 1;
    if k < n {
      TakenUpdate(bits[..n], k, v);
      assert bits[k := v][..n] == bits[..n][k := v];
    } else {
      assert bits[k := v][..n] == bits[..n];
    }
  }

  lemma {:induction false} TakenIsCardinality(bits: seq<bool>)
    ensures Taken(bits) == |set k | 0 <= k < |bits| && !bits[k]|
  {
    if bits != [] {
      var n := |bits| - 1;
      TakenIsCardinality(bits[..n]);
      var fewer := set k | 0 <= k < n && !bits[..n][k];
      assert (set k | 0 <= k < |bits| && !bits[k]) == fewer + if bits[n] then {} else {n};
    }
  }

  lemma {:induction false} TakenNone(bits: seq<bool>)
    requires forall k :: 0 <= k < |bits| ==> bits[k]
    ensures Taken(bits) == 0
  {
    if bits != [] {
      TakenNone(bits[..|bits| - 1]);
    }
  }

  /** Zero taken slots means every bit is free. */
  lemma {:induction false} TakenZero(bits: seq<bool>, k: nat)
    requires Taken(bits) == 0 && k < |bits|
    ensures bits[k]
  {
    var n := |bits| - 1;
    if k < n {
      TakenZero(bits[..n], k);
    }
  }

  lemma {:induction false} TakenAtMost(bits: seq<bool>, n: nat)
    requires forall k :: n <= k < |bits| ==> bits[k]
    ensures Taken(bits) <= n
  {
    if bits != [] {
      var m := |bits| - 1;
      TakenAtMost(bits[..m], if n > m then m else n);
    }
  }

  /** When n slots are taken among the first n, all of these are. */
  lemma {:induction false} TakenAll(bits: seq<bool>, n: nat, k: nat)
    requires forall i :: n <= i < |bits| ==> bits[i]
    requires k < n <= |bits| && n <= Taken(bits)
    ensures !bits[k]
  {
    var m := |bits| - 1;
    TakenAtMost(bits[..m], if n > m then m else n);
    if n <= m {
      TakenAll(bits[..m], n, k);
    } else if k < m {
      TakenAll(bits[..m], m, k);
    }
  }

  /** While fewer than n slots are taken, one of the first n is free. */
  lemma {:induction false} FreeSlotBelow(bits: seq<bool>, n: nat) returns (k: nat)
    requires n <= |bits| && Taken(bits) < n
    ensures k < n && bits[k]
  {
    if n < |bits| {
      k := FreeSlotBelow(bits[..|bits| - 1], n);
    } else if bits[n - 1] {
      k := n - 1;
    } else {
      k := FreeSlotBelow(bits[..n - 1], n - 1);
    }
  }

  /** No two of the first n bits are true. */
  predicate AtMostOneFree(bits: seq<bool>, n: nat)
    requires n <= |bits|
  {
    forall i, j :: 0 <= i < j < n ==> !(bits[i] && bits[j])
  }

  /** With the bit behind the first n taken and none further back, n taken bits leave one of the first n
      free at most, and fewer leave two. */
  lemma FreeBelowTail(bits: seq<bool>, n: nat)
    requires n < |bits| && !bits[n] && forall k :: n < k < |bits| ==> bits[k]
    ensures Taken(bits) >= n <==> AtMostOneFree(bits, n)
  {
    if Taken(bits) < n {
      var open := bits[n := true];
      TakenUpdate(bits, n, true);
      var i := FreeSlotBelow(open, n);
      TakenUpdate(open, i, false);
      var j := FreeSlotBelow(open[i := false], n);
      assert bits[i] && bits[j] && i != j;
    } else {
      forall i, j | 0 <= i < j < n ensures !(bits[i] && bits[j]) {
        if bits[i] && bits[j] {
          TakenUpdate(bits, i, false);
          TakenUpdate(bits[i := false], j, false);
          TakenAtMost(bits[i := false][j := false], n + 1);
        }
      }
    }
  }

  /** All slots agree with the coverage `cov`, the live slots and the cached slots. */
  ghost predicate SlotsOk(cov: seq<set<nat>>, live: set<nat>, cached: set<nat>,
                          bitmap: seq<bool>, meta: seq<bool>, dmeta: seq<DMeta>) {
    && |cov| <= |bitmap| && |cov| <= |dmeta|
    && (forall k :: 0 <= k < |cov| ==> BidToMid(k) < |meta|)
    && (forall k :: 0 <= k < |cov| ==>
          SlotOk(cov[k], k in live, k in cached, bitmap[k], meta[BidToMid(k)], dmeta[k]))
    && (forall k :: |cov| <= k < |bitmap| ==> bitmap[k])
  }

  /** Changing the records of one slot leaves the others in agreement. */
  lemma SlotUpdate(cov: seq<set<nat>>, live: set<nat>, cached: set<nat>,
                   bitmap: seq<bool>, meta: seq<bool>, dmeta: seq<DMeta>, k: nat,
                   over: set<nat>, live': set<nat>, cached': set<nat>, free: bool, metaBit: bool, d: DMeta)
    requires SlotsOk(cov, live, cached, bitmap, meta, dmeta) && k < |cov|
    requires forall i :: i != k ==> (i in live <==> i in live') && (i in cached <==> i in cached')
    requires SlotOk(over, k in live', k in cached', free, metaBit, d)
    ensures SlotsOk(cov[k := over], live', cached',
                    bitmap[k := free], meta[BidToMid(k) := metaBit], dmeta[k := d])
  {
    forall i | 0 <= i < |cov| && i != k ensures BidToMid(i) != BidToMid(k) {
      if BidToMid(i) == BidToMid(k) {
        BidToMidInjective(i, k);
      }
    }
  }
}
