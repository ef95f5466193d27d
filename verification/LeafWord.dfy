/** The compact leaf element of include/nvalloc/internal/rtree.h: a size class index in the high 16
    bits, the low 48 bits of an extent pointer, and the slab flag in bit 0. */
module LeafWords {

  const LOW48: bv64 := 0xFFFF_FFFF_FFFF

  // ---------------------------------------------------------------------------------------
  // Fields
  // ---------------------------------------------------------------------------------------

  /** rtree_leaf_elm_bits_extent_get: bit 47 is extended into the high bits, and bit 0 is masked off. */
  function ExtentGet(bits: bv64): bv64 {
    (if bits & 0x8000_0000_0000 != 0 then (bits & LOW48) | 0xFFFF_0000_0000_0000 else bits & LOW48) & !1
  }

  /** rtree_leaf_elm_bits_szind_get. */
  function SzindGet(bits: bv64): bv64 {
    bits >> 48
  }

  /** rtree_leaf_elm_bits_slab_get. */
  function SlabGet(bits: bv64): bool {
    bits & 1 == 1
  }

  function Bit(slab: bool): bv64 {
    if slab then 1 else 0
  }

  /** rtree_leaf_elm_write. */
  function Pack(extent: bv64, szind: bv64, slab: bool): bv64 {
    (szind << 48) | (extent & LOW48) | Bit(slab)
  }

  /** A pointer that fits: its high 17 bits agree, and it is even. */
  predicate Canonical(extent: bv64) {
    (extent >> 47 == 0 || extent >> 47 == 0x1_FFFF) && extent & 1 == 0
  }

  predicate SzindFits(szind: bv64) {
    szind < 0x1_0000
  }

  lemma PackSzind(extent: bv64, szind: bv64, slab: bool)
    requires SzindFits(szind)
    ensures SzindGet(Pack(extent, szind, slab)) == szind
  {
  }

  lemma PackSlab(extent: bv64, szind: bv64, slab: bool)
    requires Canonical(extent)
    ensures SlabGet(Pack(extent, szind, slab)) == slab
  {
  }

  lemma PackExtent(extent: bv64, szind: bv64, slab: bool)
    requires Canonical(extent)
    ensures ExtentGet(Pack(extent, szind, slab)) == extent
  {
    if extent >> 47 == 0 {
      LowExtent(extent, szind, slab);
    } else {
      HighExtent(extent, szind, slab);
    }
  }

  lemma LowExtent(extent: bv64, szind: bv64, slab: bool)
    requires extent >> 47 == 0 && extent & 1 == 0
    ensures ExtentGet(Pack(extent, szind, slab)) == extent
  {
  }

  lemma HighExtent(extent: bv64, szind: bv64, slab: bool)
    requires extent >> 47 == 0x1_FFFF && extent & 1 == 0
    ensures ExtentGet(Pack(extent, szind, slab)) == extent
  {
  }

  /** What a word says always fits, whatever the word. */
  lemma FieldsFit(bits: bv64)
    ensures Canonical(ExtentGet(bits)) && SzindFits(SzindGet(bits))
    ensures Pack(ExtentGet(bits), SzindGet(bits), SlabGet(bits)) == bits
  {
  }

  // ---------------------------------------------------------------------------------------
  // Writes of single fields
  // ---------------------------------------------------------------------------------------

  datatype Fields = Fields(extent: bv64, szind: bv64, slab: bool)

  function Read(bits: bv64): Fields {
    Fields(ExtentGet(bits), SzindGet(bits), SlabGet(bits))
  }

  datatype Write =
    | SetExtent(extent: bv64)
    | SetSzind(szind: bv64)
    | SetSlab(slab: bool)
    | SetAll(fields: Fields)

  predicate WriteFits(w: Write) {
    match w
    case SetExtent(e) => Canonical(e)
    case SetSzind(s) => SzindFits(s)
    case SetSlab(_) => true
    case SetAll(f) => Canonical(f.extent) && SzindFits(f.szind)
  }

  /** The writers read the old word, keep two of its fields and store a new one. */
  function Stored(bits: bv64, w: Write): bv64 {
    match w
    case SetExtent(e) => Pack(e, SzindGet(bits), SlabGet(bits))
    case SetSzind(s) => Pack(ExtentGet(bits), s, SlabGet(bits))
    case SetSlab(b) => Pack(ExtentGet(bits), SzindGet(bits), b)
    case SetAll(f) => Pack(f.extent, f.szind, f.slab)
  }

  function Updated(f: Fields, w: Write): Fields {
    match w
    case SetExtent(e) => f.(extent := e)
    case SetSzind(s) => f.(szind := s)
    case SetSlab(b) => f.(slab := b)
    case SetAll(g) => g
  }

  /** The three fields do not overlap. */
  lemma PackRead(extent: bv64, szind: bv64, slab: bool)
    requires Canonical(extent) && SzindFits(szind)
    ensures Read(Pack(extent, szind, slab)) == Fields(extent, szind, slab)
  {
    hide Canonical, SzindFits, ExtentGet, SzindGet, SlabGet, Pack;
    PackSzind(extent, szind, slab);
    PackSlab(extent, szind, slab);
    PackExtent(extent, szind, slab);
  }

  /** An odd pointer shows as a slab. */
  lemma PackSlabBit(extent: bv64, szind: bv64, slab: bool)
    ensures SlabGet(Pack(extent, szind, slab)) <==> slab || extent & 1 == 1
  {
  }

  /** A word gives back exactly the values that fit: even canonical pointers and 16-bit classes. */
  lemma PackReadsExactly(extent: bv64, szind: bv64, slab: bool)
    ensures Read(Pack(extent, szind, slab)) == Fields(extent, szind, slab) <==> Canonical(extent) && SzindFits(szind)
    ensures SlabGet(Pack(extent, szind, slab)) <==> slab || extent & 1 == 1
  {
    hide Canonical, SzindFits, ExtentGet, SzindGet, SlabGet, Pack;
    FieldsFit(Pack(extent, szind, slab));
    PackSlabBit(extent, szind, slab);
    if Canonical(extent) && SzindFits(szind) {
      PackRead(extent, szind, slab);
    }
  }

  /** A write sets its field and no other. */
  lemma WriteIsUpdate(bits: bv64, w: Write)
    requires WriteFits(w)
    ensures Read(Stored(bits, w)) == Updated(Read(bits), w)
  {
    hide Canonical, SzindFits, ExtentGet, SzindGet, SlabGet, Pack;
    FieldsFit(bits);
    match w
    case SetExtent(e) => PackRead(e, SzindGet(bits), SlabGet(bits));
    case SetSzind(s) => PackRead(ExtentGet(bits), s, SlabGet(bits));
    case SetSlab(b) => PackRead(ExtentGet(bits), SzindGet(bits), b);
    case SetAll(f) => PackRead(f.extent, f.szind, f.slab);
  }

  function StoredAll(bits: bv64, ws: seq<Write>): bv64
    decreases |ws|
  {
    if ws == [] then bits else StoredAll(Stored(bits, ws[0]), ws[1..])
  }

  function UpdatedAll(f: Fields, ws: seq<Write>): Fields
    decreases |ws|
  {
    if ws == [] then f else UpdatedAll(Updated(f, ws[0]), ws[1..])
  }

  /** Any sequence of writes reads back as the last value of each field. */
  lemma {:induction false} WritesReadBack(bits: bv64, ws: seq<Write>)
    requires forall w :: w in ws ==> WriteFits(w)
    ensures Read(StoredAll(bits, ws)) == UpdatedAll(Read(bits), ws)
    decreases |ws|
  {
    hide Read, Stored, Updated, WriteFits;
    if ws != [] {
      WriteIsUpdate(bits, ws[0]);
      WritesReadBack(Stored(bits, ws[0]), ws[1..]);
    }
  }
}
