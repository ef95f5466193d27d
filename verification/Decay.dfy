/** The decay of unused pages in src/arena.c: an epoch that follows the clock, a backlog of the pages
    that came in during the last 200 intervals, and the number of pages that may stay. */
module Decays {
  import opened Smoothsteps

  const WORD := 0x1_0000_0000_0000_0000

  // ---------------------------------------------------------------------------------------
  // The backlog
  // ---------------------------------------------------------------------------------------

  function Zeros(n: nat): seq<nat> {
    seq(n, _ => 0)
  }

  /** One interval passes, in which d pages came in. */
  function Step(b: seq<nat>, d: nat): seq<nat>
    requires |b| > 0
  {
    b[1..] + [d]
  }

  /** n intervals pass; all that came in came in during the last of them. */
  function Steps(b: seq<nat>, n: nat, d: nat): (r: seq<nat>)
    requires |b| > 0 && n > 0
    ensures |r| == |b|
  {
    if n == 1 then Step(b, d) else Step(Steps(b, n - 1, 0), d)
  }

  lemma {:induction false} StepsAre(b: seq<nat>, n: nat, d: nat)
    requires |b| == NSTEPS && n > 0
    ensures Steps(b, n, d) == if n < NSTEPS then b[n..] + Zeros(n - 1) + [d] else Zeros(NSTEPS - 1) + [d]
  {
    if n > 1 {
      StepsAre(b, n - 1, 0);
    }
  }

  /** Updates compose. */
  lemma {:induction false} StepsCompose(b: seq<nat>, n: nat, k: nat, d: nat)
    requires |b| > 0 && n > 0 && k > 0
    ensures Steps(Steps(b, n, 0), k, d) == Steps(b, n + k, d)
  {
    if k > 1 {
      StepsCompose(b, n, k - 1, 0);
    }
  }

  function Sum(b: seq<nat>): nat {
    if b == [] then 0 else b[0] + Sum(b[1..])
  }

  /** The weighted sum of a backlog whose first entry has weight H(i). */
  function Weighted(b: seq<nat>, i: nat): int {
    if b == [] then 0 else b[0] * H(i) + Weighted(b[1..], i + 1)
  }

  /** The pages that may stay. */
  function Limit(b: seq<nat>): int {
    Weighted(b, 1) / FIXED
  }

  lemma {:induction false} WeightedBounds(b: seq<nat>, i: nat)
    requires i + |b| <= NSTEPS + 1
    ensures 0 <= Weighted(b, i) <= FIXED * Sum(b)
  {
    hide H;
    if b != [] {
      HBounds(i);
      Scale(b[0], H(i), FIXED);
      WeightedBounds(b[1..], i + 1);
    }
  }

  lemma Scale(x: nat, h: int, k: int)
    requires 0 <= h <= k
    ensures 0 <= x * h <= x * k
  {
  }

  lemma {:induction false} WeightedAppend(b: seq<nat>, d: nat, i: nat)
    ensures Weighted(b + [d], i) == Weighted(b, i) + d * H(i + |b|)
  {
    hide H;
    if b == [] {
      assert (b + [d])[1..] == [];
    } else {
      assert (b + [d])[1..] == b[1..] + [d];
      WeightedAppend(b[1..], d, i + 1);
    }
  }

  /** Older pages weigh less. */
  lemma {:induction false} WeightFalls(b: seq<nat>, i: nat)
    requires i + |b| <= NSTEPS
    ensures Weighted(b, i) <= Weighted(b, i + 1)
  {
    hide H;
    if b != [] {
      HRises(i);
      Grow(b[0], H(i), H(i + 1));
      WeightFalls(b[1..], i + 1);
    }
  }

  lemma Grow(x: nat, h: int, k: int)
    requires h <= k
    ensures x * h <= x * k
  {
  }

  /** The limit never exceeds what is in the backlog. */
  lemma LimitBounds(b: seq<nat>)
    requires |b| == NSTEPS
    ensures 0 <= Limit(b) <= Sum(b)
  {
    WeightedBounds(b, 1);
  }

  /** As an interval passes the limit rises by no more than the pages that came in. */
  lemma LimitSteps(b: seq<nat>, d: nat)
    requires |b| == NSTEPS
    ensures Limit(Step(b, d)) <= Limit(b) + d
  {
    hide H;
    WeightedAppend(b[1..], d, 1);
    WeightFalls(b[1..], 1);
    HEnds();
    HBounds(1);
    Scale(b[0], H(1), FIXED);
    assert Weighted(Step(b, d), 1) <= Weighted(b, 1) + d * FIXED;
  }

  lemma {:induction false} LimitFalls(b: seq<nat>, n: nat, d: nat)
    requires |b| == NSTEPS && n > 0
    ensures Limit(Steps(b, n, d)) <= Limit(b) + d
  {
    hide Limit;
    if n == 1 {
      LimitSteps(b, d);
    } else {
      LimitFalls(b, n - 1, 0);
      LimitSteps(Steps(b, n - 1, 0), d);
    }
  }

  /** Pages that nobody adds to are let go within 200 intervals. */
  lemma DecaysToNothing(b: seq<nat>, n: nat)
    requires |b| == NSTEPS && n >= NSTEPS
    ensures Limit(Steps(b, n, 0)) == 0
  {
    hide H;
    StepsAre(b, n, 0);
    assert Steps(b, n, 0) == Zeros(NSTEPS);
    SumOfZeros(NSTEPS);
    LimitBounds(Zeros(NSTEPS));
  }

  lemma {:induction false} SumOfZeros(n: nat)
    ensures Sum(Zeros(n)) == 0
  {
    if n > 0 {
      assert Zeros(n)[1..] == Zeros(n - 1);
      SumOfZeros(n - 1);
    }
  }

  // ---------------------------------------------------------------------------------------
  // arena_decay_t
  // ---------------------------------------------------------------------------------------

  function Delta(npages: nat, nunpurged: nat): nat {
    if npages > nunpurged then npages - nunpurged else 0
  }

  class Decay {
    var epoch: nat
    var deadline: nat
    const interval: nat
    var nunpurged: nat
    const backlog: array<nat>

    ghost predicate Valid()
      reads this
    {
      interval > 0 && backlog.Length == NSTEPS && epoch + interval <= deadline < epoch + 2 * interval
    }

    /** arena_decay_reinit, with the clock's time and a jitter. */
    constructor (ns: nat, now: nat, jitter: nat)
      requires 0 < ns && jitter < ns
      ensures Valid() && interval == ns && epoch == now && nunpurged == 0 && backlog[..] == Zeros(NSTEPS) && fresh(backlog)
      ensures deadline == now + ns + jitter
    {
      interval, epoch, nunpurged := ns, now, 0;
      deadline := now + ns + jitter;
      backlog := new nat[NSTEPS](_ => 0);
    }

    /** arena_decay_deadline_init; the jitter is any number below the interval. */
    method DeadlineInit(jitter: nat)
      requires jitter < interval
      modifies this`deadline
      ensures deadline == epoch + interval + jitter
    {
      deadline := epoch;
      deadline := deadline + interval;
      deadline := deadline + jitter;
    }

    /** arena_decay_backlog_update: the backlog is what n single steps would make of it. */
    method BacklogUpdate(nadvance: nat, currentNpages: nat)
      requires backlog.Length == NSTEPS && nadvance > 0
      modifies backlog
      ensures backlog[..] == Steps(old(backlog[..]), nadvance, Delta(currentNpages, nunpurged))
      ensures nunpurged + backlog[NSTEPS - 1] == if currentNpages > nunpurged then currentNpages else nunpurged
    {
      ghost var b := backlog[..];
      if nadvance >= NSTEPS {
        for i := 0 to NSTEPS - 1
          invariant forall j :: 0 <= j < i ==> backlog[j] == 0
        {
          backlog[i] := 0;
        }
      } else {
        for i := 0 to NSTEPS - nadvance
          invariant forall j :: 0 <= j < i ==> backlog[j] == b[j + nadvance]
          invariant forall j :: i <= j < NSTEPS ==> backlog[j] == b[j]
        {
          backlog[i] := backlog[i + nadvance];
        }
        for i := NSTEPS - nadvance to NSTEPS - 1
          invariant forall j :: 0 <= j < NSTEPS - nadvance ==> backlog[j] == b[j + nadvance]
          invariant forall j :: NSTEPS - nadvance <= j < i ==> backlog[j] == 0
        {
          backlog[i] := 0;
        }
      }
      backlog[NSTEPS - 1] := Delta(currentNpages, nunpurged);
      StepsAre(b, nadvance, Delta(currentNpages, nunpurged));
      if nadvance < NSTEPS {
        assert backlog[..] == b[nadvance..] + Zeros(nadvance - 1) + [Delta(currentNpages, nunpurged)];
      } else {
        assert backlog[..] == Zeros(NSTEPS - 1) + [Delta(currentNpages, nunpurged)];
      }
    }

    /** arena_decay_backlog_npages_limit.  The sum is kept in 64 bits: the limit is right if and only if
        the weighted sum fits, as it does for a backlog of less than 2^40 pages. */
    method BacklogLimit() returns (limit: nat)
      requires backlog.Length == NSTEPS
      ensures limit == Limit(backlog[..]) <==> Weighted(backlog[..], 1) < WORD
      ensures Sum(backlog[..]) < WORD / FIXED ==> limit == Limit(backlog[..])
    {
      hide H, HStep, Weighted, Sum;
      var sum := 0;
      ghost var b := backlog[..];
      WeightedNone();
      for i := 0 to NSTEPS
        invariant 0 <= sum < WORD && sum == Weighted(b[..i], 1) % WORD
      {
        assert b[..i + 1] == b[..i] + [b[i]];
        WeightedAppend(b[..i], b[i], 1);
        HBounds(i + 1);
        Scale(b[i], H(i + 1), FIXED);
        WrapAdd(Weighted(b[..i], 1), b[i] * H(i + 1));
        TableIsPolynomial(i);
        sum := (sum + backlog[i] * HStep(i) % WORD) % WORD;
      }
      limit := sum / FIXED;
      assert b[..NSTEPS] == b;
      WeightedBounds(b, 1);
      FitsWord(Weighted(b, 1));
    }

    /** arena_decay_epoch_advance up to the purge: the epoch moves on by whole intervals and catches up
        with the clock, and the limit follows from the new backlog. */
    method EpochAdvance(time: nat, currentNpages: nat, jitter: nat) returns (limit: nat)
      requires Valid() && deadline <= time && jitter < interval
      modifies this, backlog
      ensures Valid() && epoch <= time < epoch + interval && deadline == epoch + interval + jitter
      ensures exists n: nat :: Advanced(old(epoch), epoch, interval, n)
                && backlog[..] == Steps(old(backlog[..]), n, Delta(currentNpages, old(nunpurged)))
      ensures old(nunpurged) + backlog[NSTEPS - 1] == if currentNpages > old(nunpurged) then currentNpages else old(nunpurged)
      ensures nunpurged == if limit > currentNpages then limit else currentNpages
      ensures limit == Limit(backlog[..]) <==> Weighted(backlog[..], 1) < WORD
      ensures Sum(backlog[..]) < WORD / FIXED ==> limit == Limit(backlog[..])
      ensures Sum(backlog[..]) < WORD / FIXED ==> limit <= Limit(old(backlog[..])) + Delta(currentNpages, old(nunpurged))
    {
      hide H, Weighted, Sum, Limit;
      var nadvance := (time - epoch) / interval;
      Divides(time - epoch, interval);
      epoch := epoch + interval * nadvance;
      DeadlineInit(jitter);
      BacklogUpdate(nadvance, currentNpages);
      limit := BacklogLimit();
      LimitFalls(old(backlog[..]), nadvance, Delta(currentNpages, nunpurged));
      assert Advanced(old(epoch), epoch, interval, nadvance);
      nunpurged := if limit > currentNpages then limit else currentNpages;
    }
  }

  predicate Advanced(epoch: nat, epoch': nat, interval: nat, n: nat) {
    n > 0 && epoch' == epoch + interval * n
  }

  lemma Divides(t: nat, d: nat)
    requires 0 < d <= t
    ensures t / d > 0 && d * (t / d) <= t < d * (t / d) + d
  {
  }

  /** Two advances move the epoch as far as the second alone would have; with StepsCompose, looking at the
      clock more often makes no difference while no pages come in. */
  lemma AdvancesCompose(epoch: nat, interval: nat, t1: nat, t2: nat)
    requires interval > 0 && epoch <= t1 <= t2
    ensures var n1 := (t1 - epoch) / interval;
            var e1 := epoch + interval * n1;
            e1 <= t2 && n1 + (t2 - e1) / interval == (t2 - epoch) / interval
  {
    var n1 := (t1 - epoch) / interval;
    assert interval * n1 <= t1 - epoch;
    DivMinus(t2 - epoch, n1, interval);
  }

  lemma {:induction false} DivMinus(t: nat, n: nat, d: nat)
    requires d > 0 && d * n <= t
    ensures (t - d * n) / d == t / d - n
  {
    if n > 0 {
      assert d * n == d * (n - 1) + d;
      DivMinus(t, n - 1, d);
      DivLess(t - d * (n - 1), d);
    }
  }

  lemma DivLess(t: nat, d: nat)
    requires 0 < d <= t
    ensures (t - d) / d == t / d - 1
  {
    var q, r := t / d, t % d;
    assert t - d == d * (q - 1) + r;
    UniqueQuotient(t - d, d, q - 1, r);
  }

  lemma UniqueQuotient(t: int, d: nat, q: int, r: nat)
    requires d > 0 && t == d * q + r && r < d
    ensures t / d == q
  {
    var x := t / d - q;
    assert d * x == d * (t / d) - d * q == r - t % d;
    if x != 0 {
      Gap(d, x);
    }
  }

  lemma Gap(d: int, x: int)
    requires d > 0 && x != 0
    ensures d * x >= d || d * x <= -d
  {
    if x > 0 {
      Grow(d, 1, x);
    } else {
      Grow(d, x, -1);
    }
  }

  lemma FitsWord(n: nat)
    ensures n % WORD / FIXED == n / FIXED <==> n < WORD
  {
    if n >= WORD {
      assert n % WORD / FIXED < WORD / FIXED <= n / FIXED;
    }
  }

  lemma WeightedNone()
    ensures Weighted([], 1) == 0
  {
  }

  lemma WrapAdd(a: int, x: int)
    ensures (a % WORD + x % WORD) % WORD == (a + x) % WORD
  {
  }
}
