/** What the steps of the protocol come to when one thread runs and no other holds a lock: the outcome
    of freeing and of allocating in src/extent.c. */
module CoalesceAlone {
  import opened CoalesceProtocol
  import opened CoalesceRace

  /** No other thread holds the lock of an extent, and nobody the mutex of set k. */
  ghost predicate Alone(w: World, t: nat, k: nat) {
    MutexFree(w, k) && forall u :: u in w.pc && u != t ==> Slots(w.hash, w.pc[u]) == {}
  }

  // ---------------------------------------------------------------------------------------
  // The writes of a job in a row
  // ---------------------------------------------------------------------------------------

  function WrittenBy(w: World, t: nat): World
    requires t in w.pc && w.pc[t].Writing? && w.pc[t].job.cut <= w.pc[t].job.size
  {
    var job, k, i := w.pc[t].job, w.pc[t].k, w.pc[t].i;
    w.(ext := if i <= ResizeAt(job) then Resized(w.ext, job) else w.ext, leaf := Rest(w.leaf, job, i), pc := w.pc[t := Writing(job, k, STEPS)])
  }

  function ResizeAt(job: Job): nat {
    if job.merging then 2 else 0
  }

  lemma {:induction false} Writes(w: World, t: nat)
    requires t in w.pc && w.pc[t].Writing? && w.pc[t].job.cut <= w.pc[t].job.size && w.pc[t].i <= STEPS
    ensures Path(w, WrittenBy(w, t))
    decreases STEPS - w.pc[t].i
  {
    hide Path, SlotFree, MutexFree, Resized;
    if w.pc[t].i < STEPS {
      var w' := After(w, t, Advance);
      One(w, t, Advance);
      Writes(w', t);
      assert w'.pc[t := Writing(w.pc[t].job, w.pc[t].k, STEPS)] == w.pc[t := Writing(w.pc[t].job, w.pc[t].k, STEPS)];
      assert WrittenBy(w', t) == WrittenBy(w, t);
      Joined(w, w', WrittenBy(w, t));
    } else {
      assert w.pc[t := Writing(w.pc[t].job, w.pc[t].k, STEPS)] == w.pc;
      assert WrittenBy(w, t) == w;
      Here(w);
    }
  }

  lemma Here(w: World)
    ensures Path(w, w)
  {
    assert Reaches(w, [], w);
  }

  // ---------------------------------------------------------------------------------------
  // Giving the locks and the extent back
  // ---------------------------------------------------------------------------------------

  lemma StillAlone(w: World, v: World, t: nat, k: nat)
    requires t in w.pc && Alone(w, t, k) && v.hash == w.hash && t in v.pc && v.pc == w.pc[t := v.pc[t]] && Mutex(v.pc[t]) == None
    ensures Alone(v, t, k)
  {
    hide Slots, Mutex;
  }

  /** A thread that owns e puts it into set k. */
  lemma PutsBack(w: World, t: nat, e: nat, k: nat)
    requires t in w.pc && w.pc[t] == Waiting(e, k) && Alone(w, t, k) && e in w.ext
    ensures Path(w, w.(ext := WithState(w.ext, e, In(k)), owner := w.owner - {e}, pc := w.pc[t := Idle]))
  {
    hide Path, MutexFree, Slots, Slot;
    var w1 := After(w, t, Enter);
    One(w, t, Enter);
    assert w1 == w.(pc := w.pc[t := Holding(e, k)]);
    One(w1, t, CoalesceProtocol.Deactivate);
    var v := w.(ext := WithState(w.ext, e, In(k)), owner := w.owner - {e}, pc := w.pc[t := Idle]);
    assert After(w1, t, CoalesceProtocol.Deactivate) == v;
    Joined(w, w1, v);
  }

  /** The extent that is still in hand after the writes, and what happens to the other one. */
  function Settled(w: World, t: nat): World
    requires t in w.pc && w.pc[t].Writing? && w.pc[t].job.a in w.ext && (!w.pc[t].job.merging ==> w.pc[t].job.b in w.ext)
  {
    var job, k := w.pc[t].job, w.pc[t].k;
    if job.merging then
      w.(ext := WithState(w.ext, job.a, In(k)), owner := w.owner - {job.b} - {job.a}, heap := w.heap - {job.b}, pc := w.pc[t := Idle])
    else
      w.(ext := WithState(w.ext, job.b, In(k)), owner := w.owner[job.a := User] - {job.b}, pc := w.pc[t := Idle])
  }

  lemma Settles(w: World, t: nat)
    requires t in w.pc && w.pc[t].Writing? && w.pc[t].i == STEPS && Alone(w, t, w.pc[t].k)
    requires w.pc[t].job.a in w.ext && (!w.pc[t].job.merging ==> w.pc[t].job.b in w.ext)
    ensures Path(w, Settled(w, t))
  {
    hide Path, Alone, Slots, Slot;
    var job, k := w.pc[t].job, w.pc[t].k;
    var w1 := After(w, t, Release);
    One(w, t, Release);
    if job.merging {
      var w2 := After(w1, t, Dalloc);
      One(w1, t, Dalloc);
      assert w2 == w.(owner := w.owner - {job.b}, heap := w.heap - {job.b}, pc := w.pc[t := Waiting(job.a, k)]);
      StillAlone(w, w2, t, k);
      PutsBack(w2, t, job.a, k);
      assert w2.pc[t := Idle] == w.pc[t := Idle];
      Joined(w, w1, w2);
      Joined(w, w2, Settled(w, t));
    } else {
      assert w1 == w.(owner := w.owner[job.a := User], pc := w.pc[t := Waiting(job.b, k)]);
      StillAlone(w, w1, t, k);
      PutsBack(w1, t, job.b, k);
      assert w1.pc[t := Idle] == w.pc[t := Idle];
      Joined(w, w1, Settled(w, t));
    }
  }

  // ---------------------------------------------------------------------------------------
  // Freeing
  // ---------------------------------------------------------------------------------------

  /** Extent e, in the user's hands, and its neighbour x have become one extent of set k. */
  function Freed(w: World, e: nat, k: nat, forward: bool, x: nat): World
    requires e in w.ext && x in w.ext
  {
    var a, b := if forward then e else x, if forward then x else e;
    var c, d := w.ext[a], w.ext[b];
    World(w.ext[a := Cell(c.addr, c.size + d.size, In(k))] - {b},
          (w.leaf - {c.addr + c.size - 1} - {c.addr + c.size as int})[c.addr as int := a][c.addr + c.size + d.size - 1 := a],
          w.owner - {e}, w.heap - {b}, w.pc, w.hash)
  }

  lemma Shown(w: World, e: nat, k: nat, forward: bool, x: nat)
    requires Inv(w) && e in w.ext && x in w.ext && w.ext[x].state == In(k) && Touches(w.ext[e], w.ext[x], forward)
    ensures At(w.leaf, Beside(w.ext[e], forward)) == Some(x) && x !in w.owner
  {
    hide Exclusive, AllLocal;
    var p := Beside(w.ext[e], forward);
    assert Shows(w.leaf, x, w.ext[x]) && InRange(w.ext[x], p) && IsEnd(w.ext[x], p);
  }

  /** A thread that runs alone and frees an extent next to one of the set merges the two. */
  lemma FreeMerges(w: World, t: nat, e: nat, k: nat, forward: bool, x: nat)
    requires Inv(w) && t in w.pc && w.pc[t] == Idle && Alone(w, t, k) && e in w.owner && w.owner[e] == User && e in w.ext
    requires x in w.ext && w.ext[x].state == In(k) && Touches(w.ext[e], w.ext[x], forward)
    ensures Path(w, Freed(w, e, k, forward, x))
  {
    hide Path, Inv, Slot, Slots, MutexFree, Rest;
    Shown(w, e, k, forward, x);
    var w1 := SeenBy(w, t, e, k, forward, x);
    Sees(w, t, e, k, forward, x);
    var w2 := ChosenBy(w1, t, e, k, forward, x);
    SlotIsFree(w1, t, x);
    Chooses(w1, t, e, k, forward, x);
    var w3 := MergingBy(w2, t, e, k, forward, x);
    Begins(w2, t, e, k, forward, x);
    Joined(w, w1, w2);
    Joined(w, w2, w3);
    MergeEnds(w, w3, t, e, k, forward, x);
    Joined(w, w3, Freed(w, e, k, forward, x));
  }

  lemma SlotIsFree(w: World, t: nat, x: nat)
    requires t in w.pc && w.pc[t].Seen? && forall u :: u in w.pc && u != t ==> Slots(w.hash, w.pc[u]) == {}
    ensures SlotFree(w, Slot(w.hash, x))
  {
  }

  lemma MergeEnds(w: World, w3: World, t: nat, e: nat, k: nat, forward: bool, x: nat)
    requires t in w.pc && w.pc[t] == Idle && Alone(w, t, k) && e in w.ext && x in w.ext && e != x && x !in w.owner
    requires w3 == w.(ext := WithState(w.ext, x, Active), owner := w.owner[e := Thread(t)][x := Thread(t)],
                      pc := w.pc[t := Writing(MergeJob(w, e, x, forward), k, 0)])
    ensures Path(w3, Freed(w, e, k, forward, x))
  {
    hide Path, Alone, Rest, Freed, Settled, Resized;
    var v := WrittenBy(w3, t);
    Writes(w3, t);
    StillAlone(w, v, t, k);
    MergedIs(w, w3, v, t, e, k, forward, x);
    Settles(v, t);
    Joined(w3, v, Settled(v, t));
  }

  lemma MergedIs(w: World, w3: World, v: World, t: nat, e: nat, k: nat, forward: bool, x: nat)
    requires t in w.pc && w.pc[t] == Idle && e in w.ext && x in w.ext && e != x && x !in w.owner
    requires w3 == w.(ext := WithState(w.ext, x, Active), owner := w.owner[e := Thread(t)][x := Thread(t)],
                      pc := w.pc[t := Writing(MergeJob(w, e, x, forward), k, 0)])
    requires v == WrittenBy(w3, t)
    ensures var job := MergeJob(w, e, x, forward);
            v.pc == w.pc[t := Writing(job, k, STEPS)] && v.hash == w.hash && job.a in v.ext && job.merging
    ensures Settled(v, t) == Freed(w, e, k, forward, x)
  {
    hide Rest, Resized;
    RestIs(w3.leaf, w3.pc[t].job);
    assert v.pc[t := Idle] == w.pc;
    MergedExt(w, e, k, forward, x);
  }

  lemma MergedExt(w: World, e: nat, k: nat, forward: bool, x: nat)
    requires e in w.ext && x in w.ext && e != x
    ensures var job, ext := MergeJob(w, e, x, forward), WithState(w.ext, x, Active);
            && job.cut <= job.size && job.a in Resized(ext, job)
            && WithState(Resized(ext, job), job.a, In(k)) == w.ext[job.a := Cell(job.addr, job.size, In(k))] - {job.b}
  {
  }

  // ---------------------------------------------------------------------------------------
  // Allocating
  // ---------------------------------------------------------------------------------------

  /** The first n pages of x, of set k, are the user's; the rest is the new extent b of the set. */
  function Allocated(w: World, x: nat, n: nat, b: nat, k: nat): World
    requires x in w.ext && n <= w.ext[x].size
  {
    var c := w.ext[x];
    World(w.ext[x := Cell(c.addr, n, Active)][b := Cell(c.addr + n, c.size - n, In(k))],
          w.leaf[c.addr as int := x][c.addr + n - 1 := x][c.addr + n as int := b][c.addr + c.size - 1 := b],
          w.owner[x := User], w.heap + {b}, w.pc, w.hash)
  }

  /** A thread that runs alone can take any part from the front of any extent of the set. */
  lemma AllocationSplits(w: World, t: nat, k: nat, x: nat, n: nat, b: nat)
    requires t in w.pc && w.pc[t] == Idle && Alone(w, t, k) && x in w.ext && w.ext[x].state == In(k) && 0 < n < w.ext[x].size
    requires b !in w.heap && b !in w.ext && b !in w.owner && b != x
    ensures Path(w, Allocated(w, x, n, b, k))
  {
    hide Path, Alone, Rest, Allocated, Settled, Resized;
    var w3 := CuttingBy(w, t, k, x, n, b);
    AllocationBegins(w, t, k, x, n, b);
    var v := WrittenBy(w3, t);
    Writes(w3, t);
    StillAlone(w, v, t, k);
    SplitIs(w, v, t, k, x, n, b);
    Settles(v, t);
    Joined(w, w3, v);
    Joined(w, v, Settled(v, t));
  }

  function CuttingBy(w: World, t: nat, k: nat, x: nat, n: nat, b: nat): World
    requires x in w.ext
  {
    w.(ext := WithState(w.ext, x, Active), owner := w.owner[x := Thread(t)][b := Thread(t)], heap := w.heap + {b},
       pc := w.pc[t := Writing(SplitJob(w, x, n, b), k, 0)])
  }

  lemma AllocationBegins(w: World, t: nat, k: nat, x: nat, n: nat, b: nat)
    requires t in w.pc && w.pc[t] == Idle && Alone(w, t, k) && x in w.ext && w.ext[x].state == In(k) && 0 < n < w.ext[x].size
    requires b !in w.heap
    ensures Path(w, CuttingBy(w, t, k, x, n, b))
  {
    hide Path, Slot, Slots, SplitJob;
    var job := SplitJob(w, x, n, b);
    var w1 := After(w, t, Begin(k));
    One(w, t, Begin(k));
    var w2 := After(w1, t, TakePart(x, n, b));
    assert w1 == w.(pc := w.pc[t := Picking(k)]);
    One(w1, t, TakePart(x, n, b));
    assert SplitJob(w1, x, n, b) == job by { SameSplit(w, w1, x, n, b); }
    assert w2 == CuttingBy(w, t, k, x, n, b).(pc := w.pc[t := Meeting(job, k, false)]);
    Locks(w2, t, job, k);
    assert w2.pc[t := Writing(job, k, 0)] == w.pc[t := Writing(job, k, 0)];
    Joined(w, w1, w2);
    Joined(w, w2, CuttingBy(w, t, k, x, n, b));
  }

  lemma SameSplit(w: World, w1: World, x: nat, n: nat, b: nat)
    requires x in w.ext && w1.ext == w.ext
    ensures SplitJob(w1, x, n, b) == SplitJob(w, x, n, b)
  {
  }

  lemma SplitIs(w: World, v: World, t: nat, k: nat, x: nat, n: nat, b: nat)
    requires t in w.pc && w.pc[t] == Idle && x in w.ext && 0 < n < w.ext[x].size && b !in w.ext && b !in w.owner && b != x
    requires v == WrittenBy(CuttingBy(w, t, k, x, n, b), t)
    ensures var job := SplitJob(w, x, n, b);
            v.pc == w.pc[t := Writing(job, k, STEPS)] && v.hash == w.hash && job.a in v.ext && job.b in v.ext && !job.merging
    ensures Settled(v, t) == Allocated(w, x, n, b, k)
  {
    hide Rest, Resized;
    RestIs(w.leaf, SplitJob(w, x, n, b));
    assert v.pc[t := Idle] == w.pc;
    SplitExt(w, k, x, n, b);
    SplitOwner(w.owner, t, x, b);
  }

  lemma SplitOwner(owner: map<nat, Owner>, t: nat, x: nat, b: nat)
    requires b !in owner && b != x
    ensures owner[x := Thread(t)][b := Thread(t)][x := User] - {b} == owner[x := User]
  {
  }

  lemma SplitExt(w: World, k: nat, x: nat, n: nat, b: nat)
    requires x in w.ext && 0 < n < w.ext[x].size && b !in w.ext && b != x
    ensures var job, ext := SplitJob(w, x, n, b), WithState(w.ext, x, Active);
            && job.a in Resized(ext, job) && job.b in Resized(ext, job)
            && WithState(Resized(ext, job), job.b, In(k)) == w.ext[x := Cell(job.addr, n, Active)][b := Cell(job.addr + n, job.size - n, In(k))]
  {
  }
}
