/** Real-mode addressing for the buffers handed to the VBE firmware.

    The BIOS runs in real mode, where a 16-bit segment and a 16-bit offset
    designate the physical address `segment * 16 + offset`. The header's four
    macros take apart a 32-bit physical address (the driver's `phys_bytes`) so
    that the segment and offset can be loaded into the `reg86u` registers
    ES and DI. All four are plain 32-bit masks and shifts, modelled on `bv32`.
 */
module RealMode {

  /** PB2BASE: the segment of the 64 KiB block holding `x`. It is always a
      multiple of 0x1000, so the block starts at a 64 KiB boundary, and its
      start (the segment times 16) is `x` with its offset and everything above
      1 MiB cleared. */
  function Pb2Base(x: bv32): (segment: bv32)
    ensures segment <= 0xF000
    ensures segment & 0x0FFF == 0
    ensures segment << 4 == x & 0xF0000
  {
    (x >> 4) & 0x0F000
  }

  /** PB2OFF: the offset of `x` inside its 64 KiB block; what is left of `x`
      is a whole number of 64 KiB blocks. */
  function Pb2Off(x: bv32): (offset: bv32)
    ensures offset <= 0xFFFF
    ensures (x - offset) & 0xFFFF == 0
  {
    x & 0x0FFFF
  }

  /** PB2OFFBLOCK: the start of the 64 KiB block holding `x`. It shares no bit
      with the offset, and the two add up to `x`. */
  function Pb2OffBlock(x: bv32): (block: bv32)
    ensures block & 0xFFFF == 0
    ensures block & Pb2Off(x) == 0
    ensures block + Pb2Off(x) == x
  {
    x & 0x0FFFF0000
  }

  /** PB2BASEBLOCK: the start of the 256 MiB region holding `x`: only the top
      four bits of `x` survive, and `x` lies less than 256 MiB above it. */
  function Pb2BaseBlock(x: bv32): (block: bv32)
    ensures block & 0x0FFFFFFF == 0
    ensures block & x == block
    ensures x - block <= 0x0FFFFFFF
  {
    x & 0x0F0000000
  }

  /** The physical addresses the real-mode processor reaches: below 1 MiB, and
      the segment:offset split is meant for these. */
  const ONE_MIB: bv32 := 0x100000

  /** For every 32-bit address, PB2BASE and PB2OFF recombine as a real-mode
      segment and offset to the address taken modulo 1 MiB, so exactly the
      addresses below 1 MiB are reconstructed. */
  lemma SegmentOffsetSplit(x: bv32)
    ensures (Pb2Base(x) << 4) + Pb2Off(x) == x & 0xFFFFF
    ensures (Pb2Base(x) << 4) + Pb2Off(x) == x <==> x < ONE_MIB
  {
  }

  /** PB2OFF, PB2OFFBLOCK and PB2BASEBLOCK are pure masks, so applying one
      twice changes nothing. */
  lemma OffIdempotent(x: bv32)
    ensures Pb2Off(Pb2Off(x)) == Pb2Off(x)
  {
    var o := x & 0x0FFFF;
    assert o & 0x0FFFF == o;
  }

  lemma OffBlockIdempotent(x: bv32)
    ensures Pb2OffBlock(Pb2OffBlock(x)) == Pb2OffBlock(x)
  {
    var b := x & 0x0FFFF0000;
    assert b & 0x0FFFF0000 == b;
  }

  lemma BaseBlockIdempotent(x: bv32)
    ensures Pb2BaseBlock(Pb2BaseBlock(x)) == Pb2BaseBlock(x)
  {
    var b := x & 0x0F0000000;
    assert b & 0x0F0000000 == b;
  }

  /** The 256 MiB region of an address's 64 KiB block is the region of the
      address itself. */
  lemma BaseBlockOfOffBlock(x: bv32)
    ensures Pb2BaseBlock(Pb2OffBlock(x)) == Pb2BaseBlock(x)
  {
    assert (x & 0x0FFFF0000) & 0x0F0000000 == x & 0x0F0000000;
  }

  /** PB2BASE is not a pure mask: it also shifts, and applying it twice always
      gives 0. */
  lemma BaseTwice(x: bv32)
    ensures Pb2Base(Pb2Base(x)) == 0
  {
    var s := (x >> 4) & 0x0F000;
    assert s <= 0xF000;
    assert (s >> 4) <= 0xF00;
  }

  // ---------------------------------------------------------------------
  // Far pointers

  /** A real-mode far pointer, as loaded into a segment register and an offset
      register. */
  datatype FarPtr = FarPtr(segment: bv16, offset: bv16)

  /** The physical address a far pointer designates: segment times 16 plus
      offset. The largest, 0xFFFF:0xFFFF, is 0x10FFEF, so 32 bits never wrap. */
  function Linear(p: FarPtr): (addr: bv32)
    ensures addr <= 0x10FFEF
    ensures addr & 0xF == (p.offset as bv32) & 0xF
  {
    ((p.segment as bv32) << 4) + p.offset as bv32
  }

  /** The far pointer the macros make for a buffer at physical address `x`:
      segment PB2BASE(x), offset PB2OFF(x). Both fit in 16 bits; the pointer
      designates `x` modulo 1 MiB, hence `x` itself exactly when `x` is below
      1 MiB. */
  function Split(x: bv32): (p: FarPtr)
    ensures p.segment & 0x0FFF == 0
    ensures Linear(p) == x & 0xFFFFF
    ensures Linear(p) == x <==> x < ONE_MIB
  {
    SegmentOffsetSplit(x);
    FarPtr(Pb2Base(x) as bv16, Pb2Off(x) as bv16)
  }

  /** A far pointer as the firmware stores it in a 32-bit field of a VBE block
      (such as VideoModePtr): offset in the low word, segment in the high word. */
  function FarWord(p: FarPtr): (w: bv32)
    ensures (w >> 16) as bv16 == p.segment
    ensures (w & 0xFFFF) as bv16 == p.offset
  {
    ((p.segment as bv32) << 16) | p.offset as bv32
  }

  /** The far pointer stored in a 32-bit field; every such word is the stored
      form of exactly this pointer. */
  function FromFarWord(w: bv32): (p: FarPtr)
    ensures FarWord(p) == w
  {
    FarPtr((w >> 16) as bv16, (w & 0xFFFF) as bv16)
  }

  /** The address a stored far pointer designates, in the macros' terms: the
      segment word PB2OFFBLOCK keeps, moved down to segment times 16, plus the
      offset word PB2OFF keeps. */
  lemma FarWordLinear(w: bv32)
    ensures Linear(FromFarWord(w)) == (Pb2OffBlock(w) >> 12) + Pb2Off(w)
  {
    var p := FromFarWord(w);
    assert p.segment as bv32 == w >> 16;
    assert p.offset as bv32 == w & 0xFFFF;
    assert (w >> 16) << 4 == (w & 0xFFFF0000) >> 12;
  }

  /** Reading a stored far pointer gives back the pointer stored. */
  lemma FarWordRoundTrip(p: FarPtr)
    ensures FromFarWord(FarWord(p)) == p
  {
  }

  /** A buffer below 1 MiB, split by the macros and stored as a far-pointer
      word, resolves back to its own address. */
  lemma FarWordResolves(x: bv32)
    requires x < ONE_MIB
    ensures Linear(FromFarWord(FarWord(Split(x)))) == x
  {
    FarWordRoundTrip(Split(x));
  }
}
