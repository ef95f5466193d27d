/** The page classes of include/nvalloc/internal/sizeclass.h and the class of an extent on its heap
    (src/extent.c). */
module PageClasses {

  /** The classes of PSIZE_CLASSES; the table has one entry more, which stays zero. */
  const NUM_CLASSES := 62
  const MAX_PAGES := 98304
  /** The number of heaps, and the bit that is always set. */
  const MAX_PSZ_IDX := 63

  function Pow2(n: nat): nat {
    if n == 0 then 1 else 2 * Pow2(n - 1)
  }

  /** Pages of class i: 1 to 8, then four classes to each power of two. */
  function PageClass(i: nat): nat {
    if i < 4 then i + 1 else (5 + i % 4) * Pow2((i - 4) / 4)
  }

  /** The pages of PSIZE_CLASSES, entry by entry. */
  lemma ClassesAreTable()
    ensures PageClass(0) == 1 && PageClass(1) == 2 && PageClass(2) == 3 && PageClass(3) == 4
    ensures PageClass(4) == 5 && PageClass(5) == 6 && PageClass(6) == 7 && PageClass(7) == 8
    ensures PageClass(8) == 10 && PageClass(9) == 12 && PageClass(10) == 14 && PageClass(11) == 16
    ensures PageClass(12) == 20 && PageClass(13) == 24 && PageClass(14) == 28 && PageClass(15) == 32
    ensures PageClass(16) == 40 && PageClass(17) == 48 && PageClass(18) == 56 && PageClass(19) == 64
    ensures PageClass(20) == 80 && PageClass(21) == 96 && PageClass(22) == 112 && PageClass(23) == 128
    ensures PageClass(24) == 160 && PageClass(25) == 192 && PageClass(26) == 224 && PageClass(27) == 256
    ensures PageClass(28) == 320 && PageClass(29) == 384 && PageClass(30) == 448 && PageClass(31) == 512
    ensures PageClass(32) == 640 && PageClass(33) == 768 && PageClass(34) == 896 && PageClass(35) == 1024
    ensures PageClass(36) == 1280 && PageClass(37) == 1536 && PageClass(38) == 1792 && PageClass(39) == 2048
    ensures PageClass(40) == 2560 && PageClass(41) == 3072 && PageClass(42) == 3584 && PageClass(43) == 4096
    ensures PageClass(44) == 5120 && PageClass(45) == 6144 && PageClass(46) == 7168 && PageClass(47) == 8192
    ensures PageClass(48) == 10240 && PageClass(49) == 12288 && PageClass(50) == 14336 && PageClass(51) == 16384
    ensures PageClass(52) == 20480 && PageClass(53) == 24576 && PageClass(54) == 28672 && PageClass(55) == 32768
    ensures PageClass(56) == 40960 && PageClass(57) == 49152 && PageClass(58) == 57344 && PageClass(59) == 65536
    ensures PageClass(60) == 81920 && PageClass(61) == 98304
  {
    Powers();
  }

  lemma Powers()
    ensures Pow2(0) == 1 && Pow2(1) == 2 && Pow2(2) == 4 && Pow2(3) == 8 && Pow2(4) == 16
    ensures Pow2(5) == 32 && Pow2(6) == 64 && Pow2(7) == 128 && Pow2(8) == 256 && Pow2(9) == 512
    ensures Pow2(10) == 1024 && Pow2(11) == 2048 && Pow2(12) == 4096 && Pow2(13) == 8192 && Pow2(14) == 16384
  {
  }

  lemma PageClassRises(i: nat)
    ensures 0 < PageClass(i) < PageClass(i + 1)
  {
    if i >= 4 {
      var g := (i - 4) / 4;
      Pow2Positive(g);
      if i % 4 == 3 {
        assert (i + 1 - 4) / 4 == g + 1 && (i + 1) % 4 == 0;
        assert PageClass(i + 1) == 5 * (2 * Pow2(g));
      } else {
        assert (i + 1 - 4) / 4 == g && (i + 1) % 4 == i % 4 + 1;
        Distribute(5 + i % 4, Pow2(g));
      }
    }
  }

  lemma Distribute(a: nat, b: nat)
    ensures (a + 1) * b == a * b + b
  {
  }

  lemma {:induction false} Pow2Positive(n: nat)
    ensures Pow2(n) > 0
  {
    if n > 0 {
      Pow2Positive(n - 1);
    }
  }

  lemma {:induction false} PageClassMonotone(i: nat, j: nat)
    requires i < j
    ensures PageClass(i) < PageClass(j)
  {
    PageClassRises(j - 1);
    if i < j - 1 {
      PageClassMonotone(i, j - 1);
    }
  }

  lemma LastClass()
    ensures PageClass(NUM_CLASSES - 1) == MAX_PAGES
  {
    assert Pow2(4) == 16 && Pow2(8) == 256 && Pow2(12) == 4096 && Pow2(14) == 16384;
  }

  /** The class looked up for n pages: the first that holds them; 0 beyond the table. */
  function Lookup(n: nat): nat {
    if n <= MAX_PAGES then FirstFrom(0, n) else 0
  }

  function FirstFrom(i: nat, n: nat): nat
    requires i < NUM_CLASSES
    decreases NUM_CLASSES - i
  {
    if i == NUM_CLASSES - 1 || PageClass(i) >= n then i else FirstFrom(i + 1, n)
  }

  lemma {:induction false} FirstFromIs(i: nat, n: nat)
    requires i < NUM_CLASSES && n <= MAX_PAGES && (i > 0 ==> PageClass(i - 1) < n)
    ensures var k := FirstFrom(i, n); i <= k < NUM_CLASSES && n <= PageClass(k) && (k > 0 ==> PageClass(k - 1) < n)
    decreases NUM_CLASSES - i
  {
    if i == NUM_CLASSES - 1 {
      LastClass();
    } else if PageClass(i) < n {
      FirstFromIs(i + 1, n);
    }
  }

  /** get_psizeclass rounds up. */
  lemma LookupIsCeiling(n: nat)
    requires n <= MAX_PAGES
    ensures var k := Lookup(n); k < NUM_CLASSES && n <= PageClass(k) && (k > 0 ==> PageClass(k - 1) < n)
  {
    FirstFromIs(0, n);
  }

  /** get_psizeclass_floor. */
  function Floor(n: nat): int {
    var p, q := Lookup(n), Lookup(n + 1);
    if p == q then p - 1 else p
  }

  /** get_psizeclass_floor rounds down, also at the end of the table. */
  lemma FloorIsFloor(n: nat)
    requires 0 < n <= MAX_PAGES
    ensures var k := Floor(n); 0 <= k < NUM_CLASSES && PageClass(k) <= n && (k + 1 < NUM_CLASSES ==> n < PageClass(k + 1))
  {
    LookupIsCeiling(n);
    var p := Lookup(n);
    PageClassRises(p);
    if n == MAX_PAGES {
      LastClass();
      if p < NUM_CLASSES - 1 {
        PageClassMonotone(p, NUM_CLASSES - 1);
      }
    } else {
      LookupIsCeiling(n + 1);
      var q := Lookup(n + 1);
      if p != q {
        Between(p, q, n);
      }
    }
  }

  lemma Between(p: nat, q: nat, n: nat)
    requires p != q && n <= PageClass(p) && (p > 0 ==> PageClass(p - 1) < n)
    requires n + 1 <= PageClass(q) && (q > 0 ==> PageClass(q - 1) < n + 1)
    ensures PageClass(p) == n && n < PageClass(p + 1)
  {
    PageClassRises(p);
    if q < p {
      if q < p - 1 {
        PageClassMonotone(q, p - 1);
      }
    } else if p < q - 1 {
      PageClassMonotone(p, q - 1);
    }
  }

  /** An extent on a heap at or above the class of a request is large enough for it. */
  lemma FloorFits(size: nat, npages: nat)
    requires 0 < size <= MAX_PAGES && npages <= MAX_PAGES && Lookup(npages) <= Floor(size)
    ensures npages <= size
  {
    FloorIsFloor(size);
    LookupIsCeiling(npages);
    if Lookup(npages) < Floor(size) {
      PageClassMonotone(Lookup(npages), Floor(size));
    }
  }

  /** Any extent large enough for the class of a request is on such a heap. */
  lemma FitsFloor(size: nat, npages: nat)
    requires 0 < size <= MAX_PAGES && npages <= MAX_PAGES && PageClass(Lookup(npages)) <= size
    ensures Lookup(npages) <= Floor(size)
  {
    FloorIsFloor(size);
    LookupIsCeiling(npages);
    var k, p := Floor(size), Lookup(npages);
    if k < p {
      if k + 1 < p {
        PageClassMonotone(k + 1, p);
      }
    }
  }
}
