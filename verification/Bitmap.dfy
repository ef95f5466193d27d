/** The slot bitmaps of include/nvalloc/internal/bitmap.h.  A bitmap is a whole number of 64-bit
    words; here it is the array of its bits, and a true bit means "free". */
module Bitmap {

  const WORD := 64

  ghost predicate WholeWords(bitmap: array<bool>) {
    bitmap.Length % WORD == 0
  }

  /** `__builtin_ffsl`: one plus the position of the lowest true bit, and 0 when there is none. */
  function Ffs(word: seq<bool>): (p: nat)
    ensures p == 0 <==> true !in word
    ensures p > 0 ==> p <= |word| && word[p - 1] && forall j :: 0 <= j < p - 1 ==> !word[j]
  {
    if word == [] then 0
    else if word[0] then 1
    else
      var p := Ffs(word[1..]);
      assert word == [word[0]] + word[1..];
      if p == 0 then 0 else p + 1
  }

  /** Word i of the bitmap. */
  function Word(bits: seq<bool>, i: nat): seq<bool>
    requires WORD * (i + 1) <= |bits|
  {
    bits[WORD * i..WORD * (i + 1)]
  }

  /** The search of bitmap_sfu: skip the words without a free bit, then take the lowest one. */
  method FirstFree(bitmap: array<bool>) returns (index: nat)
    requires WholeWords(bitmap) && true in bitmap[..]
    ensures index < bitmap.Length && bitmap[index]
    ensures forall k :: 0 <= k < index ==> !bitmap[k]
  {
    hide Ffs, Word;
    ghost var bits := bitmap[..];
    var i := 0;
    FirstWord(bits);
    var bit := Ffs(Word(bitmap[..], 0));
    while bit == 0
      invariant 0 <= i && WORD * (i + 1) <= bitmap.Length
      invariant bit == Ffs(Word(bits, i))
      invariant forall k :: 0 <= k < WORD * i ==> !bits[k]
      decreases bitmap.Length - i
    {
      NextWord(bits, i);
      i := i + 1;
      bit := Ffs(Word(bitmap[..], i));
    }
    index := bit - 1 + WORD * i;
    FirstInWord(bits, i);
    assert forall k :: 0 <= k < index ==> !bits[k];
  }

  /** bitmap_sfu: find the lowest free bit and, on request, take it. */
  method Sfu(bitmap: array<bool>, doSet: bool) returns (index: nat)
    requires WholeWords(bitmap) && true in bitmap[..]
    modifies bitmap
    ensures index < bitmap.Length && old(bitmap[..])[index]
    ensures forall k :: 0 <= k < index ==> !old(bitmap[..])[k]
    ensures bitmap[..] == if doSet then old(bitmap[..])[index := false] else old(bitmap[..])
  {
    index := FirstFree(bitmap);
    if doSet {
      bitmap[index] := false;
    }
  }

  lemma FirstWord(bits: seq<bool>)
    requires |bits| % WORD == 0 && true in bits
    ensures WORD <= |bits|
  {
  }

  lemma NextWord(bits: seq<bool>, i: nat)
    requires |bits| % WORD == 0 && true in bits
    requires WORD * (i + 1) <= |bits| && Ffs(Word(bits, i)) == 0
    requires forall k :: 0 <= k < WORD * i ==> !bits[k]
    ensures forall k :: 0 <= k < WORD * (i + 1) ==> !bits[k]
    ensures WORD * (i + 2) <= |bits|
  {
    forall k | WORD * i <= k < WORD * (i + 1) ensures !bits[k] {
      assert Word(bits, i)[k - WORD * i] == bits[k];
    }
    var k :| 0 <= k < |bits| && bits[k];
    assert k >= WORD * (i + 1);
  }

  lemma FirstInWord(bits: seq<bool>, i: nat)
    requires WORD * (i + 1) <= |bits| && Ffs(Word(bits, i)) > 0
    ensures var index := Ffs(Word(bits, i)) - 1 + WORD * i;
            bits[index] && forall k :: WORD * i <= k < index ==> !bits[k]
  {
    var index := Ffs(Word(bits, i)) - 1 + WORD * i;
    assert Word(bits, i)[index - WORD * i] == bits[index];
    forall k | WORD * i <= k < index ensures !bits[k] {
      assert Word(bits, i)[k - WORD * i] == bits[k];
    }
  }

  /** bitmap_unset_bits: mark slot `index` free again. */
  method UnsetBits(bitmap: array<bool>, index: nat)
    requires index < bitmap.Length
    modifies bitmap
    ensures bitmap[..] == old(bitmap[..])[index := true]
  {
    bitmap[index] := true;
  }

  /** bitmap_set_bits: the exclusive-or flips slot `index`. */
  method SetBits(bitmap: array<bool>, index: nat)
    requires index < bitmap.Length
    modifies bitmap
    ensures bitmap[..] == old(bitmap[..])[index := !old(bitmap[index])]
  {
    bitmap[index] := !bitmap[index];
  }

  function Invert(word: seq<bool>): (x: seq<bool>)
    ensures |x| == |word| && forall j :: 0 <= j < |word| ==> x[j] == !word[j]
  {
    seq(|word|, j requires 0 <= j < |word| => !word[j])
  }

  ghost predicate Ascending(ids: seq<nat>) {
    forall a, b :: 0 <= a < b < |ids| ==> ids[a] < ids[b]
  }

  lemma AscendingSnoc(ids: seq<nat>, k: nat)
    requires Ascending(ids) && forall i :: i in ids ==> i < k
    ensures Ascending(ids + [k])
  {
    forall a, b | 0 <= a < b < |ids + [k]| ensures (ids + [k])[a] < (ids + [k])[b] {
      if b == |ids| {
        assert ids[a] in ids;
      }
    }
  }

  /** The scan of slab_morphing: for each word `x = ~bitmap[i]`, visit and clear its lowest bit
      until x is zero.  The taken slots come out in ascending order. */
  method TakenSlots(bitmap: array<bool>) returns (ids: seq<nat>)
    requires WholeWords(bitmap)
    ensures Ascending(ids)
    ensures forall k :: k in ids <==> 0 <= k < bitmap.Length && !bitmap[k]
  {
    ids := [];
    for i := 0 to bitmap.Length / WORD
      invariant Ascending(ids)
      invariant forall k :: k in ids <==> 0 <= k < WORD * i && !bitmap[k]
    {
      ghost var p := WORD * i;
      var x := Invert(Word(bitmap[..], i));
      while Ffs(x) != 0
        invariant |x| == WORD && WORD * i <= p <= WORD * (i + 1)
        invariant Ascending(ids)
        invariant forall k :: k in ids <==> 0 <= k < p && !bitmap[k]
        invariant forall j :: 0 <= j < WORD ==> (x[j] <==> p <= WORD * i + j && !bitmap[WORD * i + j])
        decreases WORD * (i + 1) - p
      {
        var pos := Ffs(x) - 1;
        var bid := i * WORD + pos;
        forall k | p <= k < bid ensures bitmap[k] {
          assert !x[k - WORD * i];
        }
        AscendingSnoc(ids, bid);
        ids := ids + [bid];
        x := x[pos := false];
        p := bid + 1;
      }
      forall k | p <= k < WORD * (i + 1) ensures bitmap[k] {
        assert !x[k - WORD * i];
      }
    }
  }
}
