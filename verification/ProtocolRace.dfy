/** Why extent_rtree_leaf_elm_try_lock of src/extent.c reads the entry a second time: without it a thread
    could lock an extent that has been merged away meanwhile. */
module CoalesceRace {
  import opened CoalesceProtocol

  // ---------------------------------------------------------------------------------------
  // The rest of a merge
  // ---------------------------------------------------------------------------------------

  /** A thread that holds both locks finishes its writes without anybody's help. */
  lemma {:induction false} WriterFinishes(w: World, u: nat) returns (run: seq<Event>, v: World)
    requires Inv(w) && u in w.pc && w.pc[u].Writing? && w.pc[u].job.merging
    ensures Reaches(w, run, v) && Inv(v)
    ensures var job := w.pc[u].job; v.hash == w.hash && v.pc == w.pc[u := Parting(job.a, job.b, w.pc[u].k)] && job.b !in v.ext
    decreases STEPS - w.pc[u].i
  {
    hide Disjoint, OwnersOk, Agrees, Exclusive, Pending, ExtAfter, LeafAfter, OwnerAfter, HeapAfter, SlotFree, MutexFree, Slots, Slot, Mutex, MergeJob, SplitJob;
    assert Local(w.ext, w.leaf, w.pc[u]);
    var act := if w.pc[u].i < STEPS then Advance else Release;
    var w' := After(w, u, act);
    StepKeeps(w, u, act);
    if w.pc[u].i < STEPS {
      run, v := WriterFinishes(w', u);
      assert v.pc == w.pc[u := Parting(w.pc[u].job.a, w.pc[u].job.b, w.pc[u].k)];
    } else {
      run, v := [], w';
      assert Local(v.ext, v.leaf, v.pc[u]);
    }
    run := [Event(u, act)] + run;
    assert run[1..] + [] == run[1..];
  }

  /** If one thread has read an extent that another is just merging away, it can come to lock it when it
      is no extent any more. */
  lemma SecondReadNeeded(w: World, t: nat, u: nat) returns (run: seq<Event>, v: World)
    requires Inv(w) && t in w.pc && u in w.pc && w.pc[t].Seen? && w.pc[u].Writing?
    requires w.pc[u].job.merging && w.pc[u].job.b == w.pc[t].x
    ensures Reaches(w, run, v) && t in v.pc && v.pc[t] == w.pc[t] && w.pc[t].x !in v.ext
    ensures SlotFree(w.(pc := w.pc[u := Idle]), Slot(w.hash, w.pc[t].x)) ==> Enabled(v, t, Lock)
  {
    hide Inv, Reaches, Slot;
    run, v := WriterFinishes(w, u);
    if SlotFree(w.(pc := w.pc[u := Idle]), Slot(w.hash, w.pc[t].x)) {
      forall r | r in v.pc ensures Slot(w.hash, w.pc[t].x) !in Slots(v.hash, v.pc[r]) {
        assert r in w.pc && (r == u || w.pc[u := Idle][r] == v.pc[r]);
      }
    }
  }

  // ---------------------------------------------------------------------------------------
  // The way there
  // ---------------------------------------------------------------------------------------

  ghost predicate Path(w: World, v: World) {
    exists run :: Reaches(w, run, v)
  }

  lemma {:induction false} Append(w: World, run: seq<Event>, v: World, run': seq<Event>, v': World)
    requires Reaches(w, run, v) && Reaches(v, run', v')
    ensures Reaches(w, run + run', v')
    decreases |run|
  {
    if run == [] {
      assert run + run' == run';
    } else {
      Append(After(w, run[0].t, run[0].act), run[1..], v, run', v');
      assert (run + run')[1..] == run[1..] + run';
    }
  }

  lemma Joined(w: World, v: World, v': World)
    requires Path(w, v) && Path(v, v')
    ensures Path(w, v')
  {
    hide Reaches;
    var run :| Reaches(w, run, v);
    var run' :| Reaches(v, run', v');
    Append(w, run, v, run', v');
  }

  lemma One(w: World, t: nat, act: Action)
    requires t in w.pc && Enabled(w, t, act)
    ensures Path(w, After(w, t, act))
  {
    assert Reaches(After(w, t, act), [], After(w, t, act));
    assert [Event(t, act)][1..] == [];
    assert Reaches(w, [Event(t, act)], After(w, t, act));
  }

  function SeenBy(w: World, t: nat, e: nat, k: nat, forward: bool, x: nat): World {
    w.(owner := w.owner[e := Thread(t)], pc := w.pc[t := Seen(e, k, forward, x)])
  }

  /** An idle thread frees extent e and reads the entry of a neighbouring page. */
  lemma Sees(w: World, t: nat, e: nat, k: nat, forward: bool, x: nat)
    requires t in w.pc && w.pc[t] == Idle && e in w.owner && w.owner[e] == User && MutexFree(w, k)
    requires e in w.ext && At(w.leaf, Beside(w.ext[e], forward)) == Some(x)
    ensures Path(w, SeenBy(w, t, e, k, forward, x))
  {
    hide Path, Slot;
    var w1 := After(w, t, Free(e, k));
    One(w, t, Free(e, k));
    assert w1.pc == w.pc[t := Waiting(e, k)];
    var w2 := After(w1, t, Enter);
    One(w1, t, Enter);
    assert w2.pc == w.pc[t := Holding(e, k)];
    One(w2, t, Look(forward));
    assert After(w2, t, Look(forward)) == SeenBy(w, t, e, k, forward, x);
    Joined(w, w1, w2);
    Joined(w, w2, SeenBy(w, t, e, k, forward, x));
  }

  function ChosenBy(w: World, u: nat, f: nat, l: nat, forward: bool, x: nat): World {
    w.(pc := w.pc[u := Chosen(f, l, forward, x)])
  }

  /** It finds that the neighbour can be coalesced. */
  lemma Chooses(w: World, u: nat, f: nat, l: nat, forward: bool, x: nat)
    requires u in w.pc && w.pc[u] == Seen(f, l, forward, x) && SlotFree(w, Slot(w.hash, x))
    requires f in w.ext && At(w.leaf, Beside(w.ext[f], forward)) == Some(x) && x in w.ext && w.ext[x].state == In(l)
    ensures Path(w, ChosenBy(w, u, f, l, forward, x))
  {
    hide Path, Slot, Slots, MutexFree;
    var w1 := After(w, u, Lock);
    One(w, u, Lock);
    assert w1 == w.(pc := w.pc[u := Locked(f, l, forward, x)]);
    var w2 := After(w1, u, Recheck);
    One(w1, u, Recheck);
    assert w2 == w.(pc := w.pc[u := Found(f, l, forward, x)]);
    One(w2, u, Judge);
    assert After(w2, u, Judge) == ChosenBy(w, u, f, l, forward, x);
    Joined(w, w1, w2);
    Joined(w, w2, ChosenBy(w, u, f, l, forward, x));
  }

  function MergingBy(w: World, u: nat, f: nat, l: nat, forward: bool, x: nat): World
    requires f in w.ext && x in w.ext
  {
    w.(ext := WithState(w.ext, x, Active), owner := w.owner[x := Thread(u)], pc := w.pc[u := Writing(MergeJob(w, f, x, forward), l, 0)])
  }

  /** It takes the neighbour out of its set and both locks. */
  lemma Begins(w: World, u: nat, f: nat, l: nat, forward: bool, x: nat)
    requires u in w.pc && w.pc[u] == Chosen(f, l, forward, x) && f in w.ext && x in w.ext
    requires forall r :: r in w.pc && r != u ==> Slots(w.hash, w.pc[r]) == {}
    ensures Path(w, MergingBy(w, u, f, l, forward, x))
  {
    hide Path, Slot, MutexFree;
    var job := MergeJob(w, f, x, forward);
    var w1 := After(w, u, CoalesceProtocol.Activate);
    One(w, u, CoalesceProtocol.Activate);
    assert w1 == w.(ext := WithState(w.ext, x, Active), owner := w.owner[x := Thread(u)], pc := w.pc[u := Meeting(job, l, false)]);
    Locks(w1, u, job, l);
    assert w1.(pc := w1.pc[u := Writing(job, l, 0)]) == MergingBy(w, u, f, l, forward, x);
    Joined(w, w1, MergingBy(w, u, f, l, forward, x));
  }

  lemma Locks(w: World, u: nat, job: Job, l: nat)
    requires u in w.pc && w.pc[u] == Meeting(job, l, false) && forall r :: r in w.pc && r != u ==> Slots(w.hash, w.pc[r]) == {}
    ensures Path(w, w.(pc := w.pc[u := Writing(job, l, 0)]))
  {
    hide Path, Slot, MutexFree;
    var w1 := After(w, u, Acquire);
    One(w, u, Acquire);
    if Slot(w.hash, job.a) == Slot(w.hash, job.b) {
      assert w1 == w.(pc := w.pc[u := Writing(job, l, 0)]);
    } else {
      assert w1 == w.(pc := w.pc[u := Meeting(job, l, true)]);
      assert SlotFree(w1, Wanted(w1.hash, job, true));
      One(w1, u, Acquire);
      assert After(w1, u, Acquire) == w.(pc := w.pc[u := Writing(job, l, 0)]);
      Joined(w, w1, w.(pc := w.pc[u := Writing(job, l, 0)]));
    }
  }

  // ---------------------------------------------------------------------------------------
  // A run that ends there
  // ---------------------------------------------------------------------------------------

  const RACE_EXT := map[1 := Cell(2, 1, Active), 2 := Cell(1, 1, In(1)), 3 := Cell(0, 1, Active)]
  const RACE_LEAF: map<int, nat> := map[0 := 3, 1 := 2, 2 := 1]
  const RACE_OWNER: map<nat, Owner> := map[1 := User, 3 := User]
  const RACE_PC: map<nat, Pc> := map[0 := Idle, 1 := Idle]

  /** Two idle threads; extents 3, 2 and 1 on pages 0, 1 and 2, the middle one in set 1. */
  function Quiet(): World {
    World(RACE_EXT, RACE_LEAF, RACE_OWNER, {1, 2, 3}, RACE_PC, x => x)
  }

  lemma QuietStarts()
    ensures Start(Quiet())
  {
    hide Disjoint, Shows, Covered;
    QuietShows();
    QuietCovers();
  }

  lemma QuietShows()
    ensures Disjoint(RACE_EXT) && forall x :: x in RACE_EXT ==> Shows(RACE_LEAF, x, RACE_EXT[x])
  {
    forall x | x in RACE_EXT ensures Shows(RACE_LEAF, x, RACE_EXT[x]) {
      assert x == 1 || x == 2 || x == 3;
    }
  }

  lemma QuietCovers()
    ensures forall p :: p in RACE_LEAF ==> Covered(RACE_EXT, p)
  {
    assert InRange(RACE_EXT[3], 0) && InRange(RACE_EXT[2], 1) && InRange(RACE_EXT[1], 2);
  }

  /** From there, thread 0 frees extent 1 for set 0 and reads 2 on the page before; thread 1 frees 3, finds 2
      behind it and begins to merge. */
  function Racing(): World {
    MergingBy(SeenBy(SeenBy(Quiet(), 0, 1, 0, false, 2), 1, 3, 1, true, 2), 1, 3, 1, true, 2)
  }

  lemma RacingHappens()
    ensures Path(Quiet(), Racing())
  {
    hide Path;
    var w0 := Quiet();
    var w1 := SeenBy(w0, 0, 1, 0, false, 2);
    var w2 := SeenBy(w1, 1, 3, 1, true, 2);
    Sees(w0, 0, 1, 0, false, 2);
    Sees(w1, 1, 3, 1, true, 2);
    Chooses(w2, 1, 3, 1, true, 2);
    var w3 := ChosenBy(w2, 1, 3, 1, true, 2);
    Begins(w3, 1, 3, 1, true, 2);
    assert MergingBy(w3, 1, 3, 1, true, 2) == Racing();
    Joined(w0, w1, w2);
    Joined(w0, w2, w3);
    Joined(w0, w3, Racing());
  }

  /** The first read alone: in a run from a quiet start thread 0 locks extent 2 when there is no extent 2
      any more. */
  lemma LocksWhatIsGone() returns (v: World)
    ensures Start(Quiet()) && Path(Quiet(), v)
    ensures 0 in v.pc && v.pc[0] == Locked(1, 0, false, 2) && 2 !in v.ext
  {
    hide Inv, Path, Start, Quiet, Racing, Reaches, Slot, SlotFree;
    QuietStarts();
    StartsWell(Quiet());
    RacingHappens();
    PathKeeps(Quiet(), Racing());
    RacingIs();
    v := RaceEnds(Racing());
    Joined(Quiet(), Racing(), v);
  }

  lemma RacingIs()
    ensures var w := Racing();
      && 0 in w.pc && 1 in w.pc && w.pc[0] == Seen(1, 0, false, 2) && w.pc[1].Writing? && w.pc[1].job.merging && w.pc[1].job.b == 2
      && SlotFree(w.(pc := w.pc[1 := Idle]), Slot(w.hash, 2))
  {
  }

  lemma RaceEnds(w: World) returns (v: World)
    requires Inv(w) && 0 in w.pc && 1 in w.pc && w.pc[0] == Seen(1, 0, false, 2)
    requires w.pc[1].Writing? && w.pc[1].job.merging && w.pc[1].job.b == 2
    requires SlotFree(w.(pc := w.pc[1 := Idle]), Slot(w.hash, 2))
    ensures Path(w, v) && 0 in v.pc && v.pc[0] == Locked(1, 0, false, 2) && 2 !in v.ext
  {
    hide Inv, Path, Reaches, Slot, SlotFree;
    var run, v1 := SecondReadNeeded(w, 0, 1);
    RunIsPath(w, run, v1);
    One(v1, 0, Lock);
    v := After(v1, 0, Lock);
    Joined(w, v1, v);
  }

  lemma RunIsPath(w: World, run: seq<Event>, v: World)
    requires Reaches(w, run, v)
    ensures Path(w, v)
  {
  }

  lemma PathKeeps(w: World, v: World)
    requires Inv(w) && Path(w, v)
    ensures Inv(v)
  {
    hide Inv, Reaches;
    var run :| Reaches(w, run, v);
    RunKeeps(w, run, v);
  }
}
