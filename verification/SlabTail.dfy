/** A slab of src/slab.c that slab_pop_one_cache refuses although it has a slot to hand out: a live
    old block reaches into the partial tail slot, and one slot is left. */
module SlabTails {
  import opened SizeClasses
  import opened SlabSpec

  const META := 1152

  // ---------------------------------------------------------------------------------------
  // Runs, put together
  // ---------------------------------------------------------------------------------------

  ghost predicate Reaches(st: State, st': State) {
    exists states, ops :: RunsTo(states, ops, st, st')
  }

  ghost predicate RunsTo(states: seq<State>, ops: seq<Op>, st: State, st': State) {
    IsRun(states, ops, META) && states[0] == st && states[|ops|] == st'
  }

  lemma StaysPut(st: State)
    ensures Reaches(st, st)
  {
    assert RunsTo([st], [], st, st);
  }

  lemma OneMore(st: State, st': State, op: Op, st'': State)
    requires Reaches(st, st') && Step(st', op, st'', META)
    ensures Reaches(st, st'')
  {
    hide Step;
    var states, ops :| RunsTo(states, ops, st, st');
    assert RunsTo(states + [st''], ops + [op], st, st'');
  }

  // ---------------------------------------------------------------------------------------
  // A slab of 64-byte slots with one live block, the last
  // ---------------------------------------------------------------------------------------

  function Below(n: nat): (s: set<nat>)
    ensures forall k :: k in s <==> 0 <= k < n
  {
    if n == 0 then {} else Below(n - 1) + {n - 1}
  }

  function Holding(boot: SizeClass, live: set<nat>): State {
    State(boot, boot, {}, live, {})
  }

  lemma NotShadowed(st: State, k: nat)
    requires st.prior == {}
    ensures !Shadowed(st, k)
  {
  }

  /** Slots are handed out from the lowest on until n are live. */
  lemma {:induction false} Fill(boot: SizeClass, n: nat)
    requires n <= boot.nbits
    ensures Reaches(Holding(boot, {}), Holding(boot, Below(n)))
  {
    hide Reaches, Shadowed;
    var start := Holding(boot, {});
    if n == 0 {
      StaysPut(start);
    } else {
      Fill(boot, n - 1);
      var st := Holding(boot, Below(n - 1));
      var mid := st.(cached := {n - 1});
      forall k ensures !Shadowed(st, k) {
        NotShadowed(st, k);
      }
      OneMore(start, st, Pop(n - 1), mid);
      OneMore(start, mid, Take(n - 1), Holding(boot, Below(n)));
    }
  }

  /** The first n of them are freed again. */
  lemma {:induction false} Empty(boot: SizeClass, n: nat)
    requires n <= boot.nbits
    ensures Reaches(Holding(boot, {}), Holding(boot, Below(boot.nbits) - Below(n)))
  {
    hide Reaches;
    var start, all := Holding(boot, {}), Below(boot.nbits);
    if n == 0 {
      Fill(boot, boot.nbits);
      assert all - Below(0) == all;
    } else {
      Empty(boot, n - 1);
      assert all - Below(n) == (all - Below(n - 1)) - {n - 1};
      OneMore(start, Holding(boot, all - Below(n - 1)), FreeNew(n - 1, false), Holding(boot, all - Below(n)));
    }
  }

  lemma SmallClass(boot: SizeClass)
    requires IsBoot(boot) && boot.bitsize == 64
    ensures boot.nbits == 1017 && boot.roffset == 448
  {
    assert BootTotal(64, 1017) == SLAB_SIZE;
    assert BootTotal(64, 1018) > SLAB_SIZE;
    if boot.nbits > 1017 {
      BootTotalMonotone(64, 1018, boot.nbits);
    }
  }

  // ---------------------------------------------------------------------------------------
  // The slab re-cut into four slots of 14336 bytes
  // ---------------------------------------------------------------------------------------

  function Large(): SizeClass {
    SizeClass(HEAD_SIZE, 1280, 4, NumBitmaps(4), 14336, HEAD_SIZE + META)
  }

  lemma LargeIsReset()
    ensures IsReset(Large(), META, TableSize(1))
  {
    forall n: nat | n > 4 ensures ResetTotal(14336, n, META, TableSize(1)) > SLAB_SIZE {
      ProductMonotone(5, n, 14336);
    }
  }

  lemma LargeBoot(target: SizeClass)
    requires IsBoot(target) && target.bitsize == 14336
    ensures MetaSize(target.nbits + 1) <= META
  {
    assert target.nbits <= 4;
  }

  /** The slab with block 1016 of the small class still live. */
  function Morphed(boot: SizeClass, cached: set<nat>): State {
    State(Large(), boot, {1016}, {}, cached)
  }

  /** The block lies in the partial tail slot, number 4, alone. */
  lemma TailOnly(boot: SizeClass, cached: set<nat>, k: nat)
    requires IsBoot(boot) && boot.bitsize == 64 && k <= 4
    ensures Shadowed(Morphed(boot, cached), k) <==> k == 4
  {
    SmallClass(boot);
    assert Start(boot, 1016) == 65472 && End(boot, 1016) == 65536;
    assert Start(Large(), 4) == 58624 && End(Large(), 3) == 58624;
    if k < 4 {
      ProductMonotone(k + 1, 4, 14336);
    } else {
      assert 1016 in Over(Large(), 4, boot, {1016});
    }
  }

  lemma AvailableIs(boot: SizeClass, cached: set<nat>, k: nat)
    requires IsBoot(boot) && boot.bitsize == 64
    ensures Available(Morphed(boot, cached), k) <==> k < 4 && k !in cached
  {
    hide Shadowed;
    if k < 4 {
      TailOnly(boot, cached, k);
    }
  }

  lemma PopLarge(boot: SizeClass, n: nat)
    requires IsBoot(boot) && boot.bitsize == 64 && n < 4
    ensures Step(Morphed(boot, Below(n)), Pop(n), Morphed(boot, Below(n + 1)), META)
  {
    hide Available, IsBoot;
    forall k: nat ensures Available(Morphed(boot, Below(n)), k) <==> k < 4 && k !in Below(n) {
      AvailableIs(boot, Below(n), k);
    }
  }

  lemma {:induction false} PopThree(boot: SizeClass, target: SizeClass, n: nat)
    requires IsBoot(boot) && boot.bitsize == 64 && IsBoot(target) && target.bitsize == 14336 && n <= 3
    ensures Reaches(Holding(boot, {}), Morphed(boot, Below(n)))
  {
    hide Reaches, Step, IsBoot;
    if n == 0 {
      SmallClass(boot);
      Empty(boot, 1016);
      assert Below(1017) - Below(1016) == {1016};
      MorphStep(boot, target);
      OneMore(Holding(boot, {}), Holding(boot, {1016}), Morph(target), Morphed(boot, {}));
    } else {
      PopThree(boot, target, n - 1);
      PopLarge(boot, n - 1);
      OneMore(Holding(boot, {}), Morphed(boot, Below(n - 1)), Pop(n - 1), Morphed(boot, Below(n)));
    }
  }

  /** From an empty slab of 64-byte slots: all slots are handed out, all but the last come back, the slab
      is re-cut for 14336 bytes and three of its four slots are handed out.  The fourth is available, and
      the slab looks full. */
  lemma LooksFullEarly(boot: SizeClass, target: SizeClass) returns (st: State)
    requires IsBoot(boot) && boot.bitsize == 64 && IsBoot(target) && target.bitsize == 14336
    ensures Reaches(Holding(boot, {}), st) && Inv(st, META)
    ensures st.sc.bitsize == 14336 && OnlyAvailable(st, 3) && LooksFull(st)
  {
    hide Reaches, Shadowed, IsBoot, Available, Inv;
    PopThree(boot, target, 3);
    st := Morphed(boot, Below(3));
    TailOnly(boot, st.cached, 4);
    forall k: nat ensures Available(st, k) <==> k == 3 {
      AvailableIs(boot, Below(3), k);
    }
    assert OnlyAvailable(st, 3);
    ReachesSafely(boot, st);
  }

  lemma MorphStep(boot: SizeClass, target: SizeClass)
    requires IsBoot(boot) && boot.bitsize == 64 && IsBoot(target) && target.bitsize == 14336
    ensures Step(Holding(boot, {1016}), Morph(target), Morphed(boot, {}), META)
  {
    hide IsReset, IsBoot;
    SmallClass(boot);
    LargeIsReset();
    LargeBoot(target);
    assert |{1016}| == 1;
  }

  lemma ReachesSafely(boot: SizeClass, st: State)
    requires IsBoot(boot) && Reaches(Holding(boot, {}), st)
    ensures Inv(st, META)
  {
    hide IsBoot, Inv;
    var states, ops :| RunsTo(states, ops, Holding(boot, {}), st);
    RunsAreSafe(states, ops, META, |ops|);
  }
}
