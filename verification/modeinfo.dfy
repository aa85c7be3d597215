/** The packed `vbe_mode_info_t` structure: the 256-byte ModeInfoBlock that
    VBE Function 01h (Return VBE Mode Information) writes, section 4.4 of the
    VESA BIOS Extension Core Functions Standard 3.0.

    The field groups follow the header's own comments (mandatory for all
    revisions, VBE 1.2+, direct colour, VBE 2.0+, VBE 3.0+, remainder). They
    are labels only: the structure is always decoded in full, whatever the
    revision or memory model, exactly as a cast of the buffer to the packed
    structure does.
 */
module ModeInfo {
  import opened Packing

  /** One ModeInfoBlock, field by field in declaration order. `phys_bytes`
      fields are 32 bits wide; `uint8_t` arrays are byte sequences. */
  datatype ModeInfoBlock = ModeInfoBlock(
    // Mandatory information for all VBE revisions
    ModeAttributes: bv16,
    WinAAttributes: bv8,
    WinBAttributes: bv8,
    WinGranularity: bv16,
    WinSize: bv16,
    WinASegment: bv16,
    WinBSegment: bv16,
    WinFuncPtr: bv32,
    BytesPerScanLine: bv16,
    // Mandatory information for VBE 1.2 and above
    XResolution: bv16,
    YResolution: bv16,
    XCharSize: bv8,
    YCharSize: bv8,
    NumberOfPlanes: bv8,
    BitsPerPixel: bv8,
    NumberOfBanks: bv8,
    MemoryModel: bv8,
    BankSize: bv8,
    NumberOfImagePages: bv8,
    Reserved1: bv8,
    // Direct colour fields (direct and YUV memory models)
    RedMaskSize: bv8,
    RedFieldPosition: bv8,
    GreenMaskSize: bv8,
    GreenFieldPosition: bv8,
    BlueMaskSize: bv8,
    BlueFieldPosition: bv8,
    RsvdMaskSize: bv8,
    RsvdFieldPosition: bv8,
    DirectColorModeInfo: bv8,
    // Mandatory information for VBE 2.0 and above
    PhysBasePtr: bv32,
    Reserved2: seq<bv8>,
    Reserved3: seq<bv8>,
    // Mandatory information for VBE 3.0 and above
    LinBytesPerScanLine: bv16,
    BnkNumberOfImagePages: bv8,
    LinNumberOfImagePages: bv8,
    LinRedMaskSize: bv8,
    LinRedFieldPosition: bv8,
    LinGreenMaskSize: bv8,
    LinGreenFieldPosition: bv8,
    LinBlueMaskSize: bv8,
    LinBlueFieldPosition: bv8,
    LinRsvdMaskSize: bv8,
    LinRsvdFieldPosition: bv8,
    MaxPixelClock: bv32,
    // Remainder of the ModeInfoBlock
    Reserved4: seq<bv8>)
  {
    /** The fixed-length arrays have their declared lengths. */
    predicate Valid() {
      |Reserved2| == 4 && |Reserved3| == 2 && |Reserved4| == 190
    }
  }

  // ---------------------------------------------------------------------
  // Layout: the field kinds in declaration order, group by group, each with
  // its table of offsets relative to the start of the group.

  const Mandatory: seq<Field> := [U16, U8, U8, U16, U16, U16, U16, U32, U16]
  const MandatoryOffsets: seq<nat> := [0, 2, 3, 4, 6, 8, 10, 12, 16, 18]

  const Vbe12: seq<Field> := [U16, U16, U8, U8, U8, U8, U8, U8, U8, U8, U8]
  const Vbe12Offsets: seq<nat> := [0, 2, 4, 5, 6, 7, 8, 9, 10, 11, 12, 13]

  const DirectColor: seq<Field> := [U8, U8, U8, U8, U8, U8, U8, U8, U8]
  const DirectColorOffsets: seq<nat> := [0, 1, 2, 3, 4, 5, 6, 7, 8, 9]

  const Vbe20: seq<Field> := [U32, Bytes(4), Bytes(2)]
  const Vbe20Offsets: seq<nat> := [0, 4, 8, 10]

  const Vbe30: seq<Field> := [U16, U8, U8, U8, U8, U8, U8, U8, U8, U8, U8, U32]
  const Vbe30Offsets: seq<nat> := [0, 2, 3, 4, 5, 6, 7, 8, 9, 10, 11, 12, 16]

  const Remainder: seq<Field> := [Bytes(190)]

  /** The whole packed structure. */
  const Layout: seq<Field> := Mandatory + Vbe12 + DirectColor + Vbe20 + Vbe30 + Remainder

  /** Size of the packed structure in bytes. */
  const SIZE: nat := 256

  /** Positions of some fields in the layout (their declaration index). */
  const PHYS_BASE_PTR: nat := 29
  const LIN_BYTES_PER_SCAN_LINE: nat := 32
  const MAX_PIXEL_CLOCK: nat := 43
  const RESERVED4: nat := 44

  // ---------------------------------------------------------------------
  // Between the record and its field values


  /** The field values of a record, in declaration order, group by group. */
  function Values(m: ModeInfoBlock): seq<Value> {
    MandatoryValues(m) + Vbe12Values(m) + DirectColorValues(m) + Vbe20Values(m) + Vbe30Values(m)
    + [Raw(m.Reserved4)]
  }

  function MandatoryValues(m: ModeInfoBlock): seq<Value> {
    [Word(m.ModeAttributes), Byte(m.WinAAttributes), Byte(m.WinBAttributes), Word(m.WinGranularity),
     Word(m.WinSize), Word(m.WinASegment), Word(m.WinBSegment), DWord(m.WinFuncPtr),
     Word(m.BytesPerScanLine)]
  }

  function Vbe12Values(m: ModeInfoBlock): seq<Value> {
    [Word(m.XResolution), Word(m.YResolution), Byte(m.XCharSize), Byte(m.YCharSize),
     Byte(m.NumberOfPlanes), Byte(m.BitsPerPixel), Byte(m.NumberOfBanks), Byte(m.MemoryModel),
     Byte(m.BankSize), Byte(m.NumberOfImagePages), Byte(m.Reserved1)]
  }

  function DirectColorValues(m: ModeInfoBlock): seq<Value> {
    [Byte(m.RedMaskSize), Byte(m.RedFieldPosition), Byte(m.GreenMaskSize), Byte(m.GreenFieldPosition),
     Byte(m.BlueMaskSize), Byte(m.BlueFieldPosition), Byte(m.RsvdMaskSize), Byte(m.RsvdFieldPosition),
     Byte(m.DirectColorModeInfo)]
  }

  function Vbe20Values(m: ModeInfoBlock): seq<Value> {
    [DWord(m.PhysBasePtr), Raw(m.Reserved2), Raw(m.Reserved3)]
  }

  function Vbe30Values(m: ModeInfoBlock): seq<Value> {
    [Word(m.LinBytesPerScanLine), Byte(m.BnkNumberOfImagePages), Byte(m.LinNumberOfImagePages),
     Byte(m.LinRedMaskSize), Byte(m.LinRedFieldPosition), Byte(m.LinGreenMaskSize),
     Byte(m.LinGreenFieldPosition), Byte(m.LinBlueMaskSize), Byte(m.LinBlueFieldPosition),
     Byte(m.LinRsvdMaskSize), Byte(m.LinRsvdFieldPosition), DWord(m.MaxPixelClock)]
  }

  /** The record whose field values are `vs`, in declaration order. */
  function FromValues(vs: seq<Value>): ModeInfoBlock
    requires |vs| == |Layout|
  {
    ModeInfoBlock(
      AsWord(vs[0]), AsByte(vs[1]), AsByte(vs[2]), AsWord(vs[3]), AsWord(vs[4]), AsWord(vs[5]), AsWord(vs[6]), AsDWord(vs[7]), AsWord(vs[8]),
      AsWord(vs[9]), AsWord(vs[10]), AsByte(vs[11]), AsByte(vs[12]), AsByte(vs[13]), AsByte(vs[14]), AsByte(vs[15]), AsByte(vs[16]),
      AsByte(vs[17]), AsByte(vs[18]), AsByte(vs[19]),
      AsByte(vs[20]), AsByte(vs[21]), AsByte(vs[22]), AsByte(vs[23]), AsByte(vs[24]), AsByte(vs[25]), AsByte(vs[26]), AsByte(vs[27]),
      AsByte(vs[28]),
      AsDWord(vs[29]), AsBytes(vs[30]), AsBytes(vs[31]),
      AsWord(vs[32]), AsByte(vs[33]), AsByte(vs[34]), AsByte(vs[35]), AsByte(vs[36]), AsByte(vs[37]), AsByte(vs[38]), AsByte(vs[39]),
      AsByte(vs[40]), AsByte(vs[41]), AsByte(vs[42]), AsDWord(vs[43]),
      AsBytes(vs[44]))
  }

  /** The values of PhysBasePtr, LinBytesPerScanLine, MaxPixelClock and
      Reserved4 are at their declaration indices. */
  lemma ValuesAtOffsets(m: ModeInfoBlock)
    ensures |Values(m)| == |Layout|
    ensures Values(m)[PHYS_BASE_PTR] == DWord(m.PhysBasePtr)
    ensures Values(m)[LIN_BYTES_PER_SCAN_LINE] == Word(m.LinBytesPerScanLine)
    ensures Values(m)[MAX_PIXEL_CLOCK] == DWord(m.MaxPixelClock)
    ensures Values(m)[RESERVED4] == Raw(m.Reserved4)
  {
    var p3 := MandatoryValues(m) + Vbe12Values(m) + DirectColorValues(m);
    var p5 := p3 + Vbe20Values(m) + Vbe30Values(m);
    assert |p3| == 29 && |p5| == 44;
    assert Values(m) == p5 + [Raw(m.Reserved4)];
    assert p5[29] == Vbe20Values(m)[0];
    assert p5[32] == Vbe30Values(m)[0];
    assert p5[43] == Vbe30Values(m)[11];
  }

  // ---------------------------------------------------------------------
  // The codec

  /** The 256 bytes of a well-formed ModeInfoBlock: every field at its packed
      offset, multi-byte fields little-endian. */
  function Encode(m: ModeInfoBlock): (s: seq<bv8>)
    requires m.Valid()
    ensures |s| == SIZE
    ensures s[40..44] == Le32(m.PhysBasePtr)
    ensures s[50..52] == Le16(m.LinBytesPerScanLine)
    ensures s[62..66] == Le32(m.MaxPixelClock)
    ensures s[66..] == m.Reserved4
  {
    ValuesConform(m);
    LayoutSize();
    FieldOffsets();
    ValuesAtOffsets(m);
    var vs := Values(m);
    var s := Packing.Encode(Layout, vs);
    EncodeAt(Layout, vs, PHYS_BASE_PTR);
    assert s[40..44] == EncodeValue(DWord(m.PhysBasePtr));
    EncodeAt(Layout, vs, LIN_BYTES_PER_SCAN_LINE);
    assert s[50..52] == EncodeValue(Word(m.LinBytesPerScanLine));
    EncodeAt(Layout, vs, MAX_PIXEL_CLOCK);
    assert s[62..66] == EncodeValue(DWord(m.MaxPixelClock));
    EncodeAt(Layout, vs, RESERVED4);
    assert s[66..256] == m.Reserved4;
    s
  }

  /** The ModeInfoBlock held in a 256-byte buffer, read as the packed structure
      is read: every buffer decodes, and re-encoding the result gives back the
      buffer byte for byte. */
  function Decode(s: seq<bv8>): (m: ModeInfoBlock)
    requires |s| == SIZE
    ensures m.Valid()
    ensures Encode(m) == s
  {
    LayoutSize();
    var vs := Packing.Decode(Layout, s);
    SplitConforms(vs);
    ValuesFromValues(vs);
    FromValues(vs)
  }

  /** Decoding the bytes of a well-formed block gives back the block. */
  lemma DecodeEncode(m: ModeInfoBlock)
    requires m.Valid()
    ensures Decode(Encode(m)) == m
  {
    ValuesConform(m);
    LayoutSize();
    Packing.DecodeEncode(Layout, Values(m));
    FromValuesValues(m);
  }

  /** The decoder reads PhysBasePtr, LinBytesPerScanLine and MaxPixelClock
      from bytes 40, 50 and 62, and Reserved4 from bytes 66 to 255. */
  lemma DecodeReadsOffsets(s: seq<bv8>)
    requires |s| == SIZE
    ensures Decode(s).PhysBasePtr == FromLe32(s[40..44])
    ensures Decode(s).LinBytesPerScanLine == FromLe16(s[50..52])
    ensures Decode(s).MaxPixelClock == FromLe32(s[62..66])
    ensures Decode(s).Reserved4 == s[66..]
  {
    var m := Decode(s);
    Le32Inverse(m.PhysBasePtr);
    Le16Inverse(m.LinBytesPerScanLine);
    Le32Inverse(m.MaxPixelClock);
  }

  // ---------------------------------------------------------------------
  // Layout facts

  /** Each group table is the packed offsets of its group. */
  lemma GroupTables()
    ensures Packed(Mandatory, MandatoryOffsets)
    ensures Packed(Vbe12, Vbe12Offsets)
    ensures Packed(DirectColor, DirectColorOffsets)
    ensures Packed(Vbe20, Vbe20Offsets)
    ensures Packed(Vbe30, Vbe30Offsets)
  {
    MandatoryTable();
    Vbe12Table();
    DirectColorTable();
    Vbe20Table();
    Vbe30Table();
  }

  lemma MandatoryTable() ensures Packed(Mandatory, MandatoryOffsets) { }
  lemma Vbe12Table() ensures Packed(Vbe12, Vbe12Offsets) { }
  lemma DirectColorTable() ensures Packed(DirectColor, DirectColorOffsets) { }
  lemma Vbe20Table() ensures Packed(Vbe20, Vbe20Offsets) { }
  lemma Vbe30Table() ensures Packed(Vbe30, Vbe30Offsets) { }

  /** The size of each group. */
  lemma GroupSizes()
    ensures Size(Mandatory) == 18 && Size(Vbe12) == 13 && Size(DirectColor) == 9
    ensures Size(Vbe20) == 10 && Size(Vbe30) == 16 && Size(Remainder) == 190
  {
    GroupTables();
    PackedSize(Mandatory, MandatoryOffsets);
    PackedSize(Vbe12, Vbe12Offsets);
    PackedSize(DirectColor, DirectColorOffsets);
    PackedSize(Vbe20, Vbe20Offsets);
    PackedSize(Vbe30, Vbe30Offsets);
    assert Remainder[1..] == [];
  }

  /** The whole structure has 45 fields and is 256 bytes, as section 4.4 of
      VBE 3.0 requires of the ModeInfoBlock. */
  lemma LayoutSize()
    ensures |Layout| == 45
    ensures Size(Layout) == SIZE
  {
    GroupSizes();
    var p1 := Mandatory + Vbe12;
    var p2 := p1 + DirectColor;
    var p3 := p2 + Vbe20;
    var p4 := p3 + Vbe30;
    SizeAppend(Mandatory, Vbe12);
    SizeAppend(p1, DirectColor);
    SizeAppend(p2, Vbe20);
    SizeAppend(p3, Vbe30);
    SizeAppend(p4, Remainder);
  }

  /** A well-formed record gives a value of the right kind to every field. */
  lemma ValuesConform(m: ModeInfoBlock)
    requires m.Valid()
    ensures Conforms(Values(m), Layout)
  {
    var a, b, c, d, e, f := MandatoryValues(m), Vbe12Values(m), DirectColorValues(m),
      Vbe20Values(m), Vbe30Values(m), [Raw(m.Reserved4)];
    assert Conforms(a, Mandatory);
    assert Conforms(b, Vbe12);
    assert Conforms(c, DirectColor);
    assert Conforms(d, Vbe20);
    assert Conforms(e, Vbe30);
    assert Conforms(f, Remainder);
    ConformsAppend(a, b, Mandatory, Vbe12);
    ConformsAppend(a + b, c, Mandatory + Vbe12, DirectColor);
    ConformsAppend(a + b + c, d, Mandatory + Vbe12 + DirectColor, Vbe20);
    ConformsAppend(a + b + c + d, e, Mandatory + Vbe12 + DirectColor + Vbe20, Vbe30);
    ConformsAppend(a + b + c + d + e, f, Mandatory + Vbe12 + DirectColor + Vbe20 + Vbe30, Remainder);
  }

  /** Reading a record back from its field values gives the record. */
  lemma FromValuesValues(m: ModeInfoBlock)
    ensures FromValues(Values(m)) == m
  {
  }

  /** Field values that conform to the layout split into values conforming to
      each group. */
  lemma SplitConforms(vs: seq<Value>)
    requires Conforms(vs, Layout)
    ensures Conforms(vs[..9], Mandatory)
    ensures Conforms(vs[9..20], Vbe12)
    ensures Conforms(vs[20..29], DirectColor)
    ensures Conforms(vs[29..32], Vbe20)
    ensures Conforms(vs[32..44], Vbe30)
    ensures Conforms(vs[44..], Remainder)
  {
    var a, b, c, d, e, f := vs[..9], vs[9..20], vs[20..29], vs[29..32], vs[32..44], vs[44..];
    assert vs == a + b + c + d + e + f;
    ConformsAppend(a + b + c + d + e, f, Mandatory + Vbe12 + DirectColor + Vbe20 + Vbe30, Remainder);
    ConformsAppend(a + b + c + d, e, Mandatory + Vbe12 + DirectColor + Vbe20, Vbe30);
    ConformsAppend(a + b + c, d, Mandatory + Vbe12 + DirectColor, Vbe20);
    ConformsAppend(a + b, c, Mandatory + Vbe12, DirectColor);
    ConformsAppend(a, b, Mandatory, Vbe12);
  }

  /** Field values that conform to the layout are the values of the record
      built from them: no field is dropped or retyped. */
  lemma ValuesFromValues(vs: seq<Value>)
    requires Conforms(vs, Layout)
    ensures Values(FromValues(vs)) == vs
  {
    SplitConforms(vs);
    var m := FromValues(vs);
    MandatoryFromValues(vs);
    Vbe12FromValues(vs);
    DirectColorFromValues(vs);
    Vbe20FromValues(vs);
    Vbe30FromValues(vs);
    assert [Raw(m.Reserved4)] == vs[44..];
    assert vs[..20] == vs[..9] + vs[9..20];
    assert vs[..29] == vs[..20] + vs[20..29];
    assert vs[..32] == vs[..29] + vs[29..32];
    assert vs[..44] == vs[..32] + vs[32..44];
    assert vs == vs[..44] + vs[44..];
  }

  lemma MandatoryFromValues(vs: seq<Value>)
    requires |vs| == |Layout| && Conforms(vs[..9], Mandatory)
    ensures MandatoryValues(FromValues(vs)) == vs[..9]
  {
    var g := vs[..9];
    assert Fits(g[0], U16) && Fits(g[1], U8) && Fits(g[2], U8) && Fits(g[3], U16) && Fits(g[4], U16);
    assert Fits(g[5], U16) && Fits(g[6], U16) && Fits(g[7], U32) && Fits(g[8], U16);
  }

  lemma Vbe12FromValues(vs: seq<Value>)
    requires |vs| == |Layout| && Conforms(vs[9..20], Vbe12)
    ensures Vbe12Values(FromValues(vs)) == vs[9..20]
  {
    var g := vs[9..20];
    assert Fits(g[0], U16) && Fits(g[1], U16);
    assert Fits(g[2], U8) && Fits(g[3], U8) && Fits(g[4], U8) && Fits(g[5], U8) && Fits(g[6], U8);
    assert Fits(g[7], U8) && Fits(g[8], U8) && Fits(g[9], U8) && Fits(g[10], U8);
    var m := FromValues(vs);
    assert Vbe12Values(m) == [g[0], g[1], g[2], g[3], g[4], g[5], g[6], g[7], g[8], g[9], g[10]];
  }

  lemma DirectColorFromValues(vs: seq<Value>)
    requires |vs| == |Layout| && Conforms(vs[20..29], DirectColor)
    ensures DirectColorValues(FromValues(vs)) == vs[20..29]
  {
    var g := vs[20..29];
    assert forall i :: 0 <= i < 9 ==> Fits(g[i], U8);
  }

  lemma Vbe20FromValues(vs: seq<Value>)
    requires |vs| == |Layout| && Conforms(vs[29..32], Vbe20)
    ensures Vbe20Values(FromValues(vs)) == vs[29..32]
  {
    var g := vs[29..32];
    assert Fits(g[0], U32) && Fits(g[1], Bytes(4)) && Fits(g[2], Bytes(2));
  }

  lemma Vbe30FromValues(vs: seq<Value>)
    requires |vs| == |Layout| && Conforms(vs[32..44], Vbe30)
    ensures Vbe30Values(FromValues(vs)) == vs[32..44]
  {
    var g := vs[32..44];
    assert Fits(g[0], U16) && Fits(g[11], U32);
    assert Fits(g[1], U8) && Fits(g[2], U8) && Fits(g[3], U8) && Fits(g[4], U8) && Fits(g[5], U8);
    assert Fits(g[6], U8) && Fits(g[7], U8) && Fits(g[8], U8) && Fits(g[9], U8) && Fits(g[10], U8);
    var m := FromValues(vs);
    assert Vbe30Values(m) == [g[0], g[1], g[2], g[3], g[4], g[5], g[6], g[7], g[8], g[9], g[10], g[11]];
  }

  /** Where the VBE 2.0, VBE 3.0 and remainder groups start. */
  lemma GroupStarts()
    ensures Size(Mandatory + Vbe12 + DirectColor) == 40
    ensures Size(Mandatory + Vbe12 + DirectColor + Vbe20) == 50
    ensures Size(Mandatory + Vbe12 + DirectColor + Vbe20 + Vbe30) == 66
  {
    GroupSizes();
    SizeAppend(Mandatory, Vbe12);
    SizeAppend(Mandatory + Vbe12, DirectColor);
    SizeAppend(Mandatory + Vbe12 + DirectColor, Vbe20);
    SizeAppend(Mandatory + Vbe12 + DirectColor + Vbe20, Vbe30);
  }

  /** Offsets of the fields the VBE 3.0 table singles out: PhysBasePtr at 40,
      LinBytesPerScanLine at 50, MaxPixelClock at 62, and the 190 reserved
      bytes filling 66 to the end. */
  lemma FieldOffsets()
    ensures Offset(Layout, PHYS_BASE_PTR) == 40 && Layout[PHYS_BASE_PTR] == U32
    ensures Offset(Layout, LIN_BYTES_PER_SCAN_LINE) == 50 && Layout[LIN_BYTES_PER_SCAN_LINE] == U16
    ensures Offset(Layout, MAX_PIXEL_CLOCK) == 62 && Layout[MAX_PIXEL_CLOCK] == U32
    ensures Offset(Layout, RESERVED4) == 66 && Layout[RESERVED4] == Bytes(190)
  {
    GroupStarts();
    var p2 := Mandatory + Vbe12 + DirectColor;
    var p3 := p2 + Vbe20;
    var p4 := p3 + Vbe30;
    assert Layout == p2 + Vbe20 + (Vbe30 + Remainder);
    OffsetInGroup(p2, Vbe20, Vbe30 + Remainder, 0);
    Vbe30Starts();
    assert Layout == p3 + Vbe30 + Remainder;
    OffsetInGroup(p3, Vbe30, Remainder, 0);
    OffsetInGroup(p3, Vbe30, Remainder, 11);
    assert Layout == p4 + Remainder + [];
    OffsetInGroup(p4, Remainder, [], 0);
  }

  lemma Vbe30Starts()
    ensures Offset(Vbe30, 0) == 0 && Offset(Vbe30, 11) == 12
  {
    GroupTables();
    PackedPrefix(Vbe30, Vbe30Offsets, 0);
    PackedPrefix(Vbe30, Vbe30Offsets, 11);
  }

  /** Offsets inside the VBE 1.2 group of XResolution, YResolution,
      BitsPerPixel and MemoryModel. */
  lemma Vbe12Starts()
    ensures Offset(Vbe12, 0) == 0 && Offset(Vbe12, 1) == 2
    ensures Offset(Vbe12, 5) == 7 && Offset(Vbe12, 7) == 9
  {
    GroupTables();
    PackedPrefix(Vbe12, Vbe12Offsets, 0);
    PackedPrefix(Vbe12, Vbe12Offsets, 1);
    PackedPrefix(Vbe12, Vbe12Offsets, 5);
    PackedPrefix(Vbe12, Vbe12Offsets, 7);
  }

  /** Every direct colour field is one byte, so each sits at its index. */
  lemma DirectColorStarts()
    ensures forall j :: 0 <= j <= |DirectColor| ==> Offset(DirectColor, j) == j
  {
    GroupTables();
    PackedOffsets(DirectColor, DirectColorOffsets);
  }

  /** A field of the VBE 1.2 group sits 18 bytes past its offset in the
      group. */
  lemma Vbe12InLayout(j: nat)
    requires j <= |Vbe12|
    ensures Offset(Layout, 9 + j) == 18 + Offset(Vbe12, j)
  {
    GroupSizes();
    var p2 := Mandatory + Vbe12;
    var p3 := p2 + DirectColor;
    var p4 := p3 + Vbe20;
    var p5 := p4 + Vbe30;
    OffsetPrefix(p5, Remainder, 9 + j);
    OffsetPrefix(p4, Vbe30, 9 + j);
    OffsetPrefix(p3, Vbe20, 9 + j);
    OffsetPrefix(p2, DirectColor, 9 + j);
    OffsetAppend(Mandatory, Vbe12, j);
  }

  /** A field of the direct colour group sits 31 bytes past its offset in the
      group. */
  lemma DirectColorInLayout(j: nat)
    requires j <= |DirectColor|
    ensures Offset(Layout, 20 + j) == 31 + Offset(DirectColor, j)
  {
    GroupSizes();
    SizeAppend(Mandatory, Vbe12);
    var p3 := Mandatory + Vbe12 + DirectColor;
    var p4 := p3 + Vbe20;
    var p5 := p4 + Vbe30;
    OffsetPrefix(p5, Remainder, 20 + j);
    OffsetPrefix(p4, Vbe30, 20 + j);
    OffsetPrefix(p3, Vbe20, 20 + j);
    OffsetAppend(Mandatory + Vbe12, DirectColor, j);
  }

  /** XResolution and YResolution sit at 18 and 20, BitsPerPixel at 25 and
      MemoryModel at 27: the VBE 1.2 group starts where the mandatory
      fields end. */
  lemma GeometryOffsets()
    ensures Offset(Layout, 9) == 18 && Layout[9] == U16
    ensures Offset(Layout, 10) == 20 && Layout[10] == U16
    ensures Offset(Layout, 14) == 25 && Layout[14] == U8
    ensures Offset(Layout, 16) == 27 && Layout[16] == U8
  {
    Vbe12Starts();
    Vbe12InLayout(0);
    Vbe12InLayout(1);
    Vbe12InLayout(5);
    Vbe12InLayout(7);
    assert Vbe12[5] == U8;
  }

  /** The red, green and blue mask sizes and field positions fill bytes 31
      to 36: the direct colour group starts 31 bytes in. */
  /** Every field of the direct colour group is a single byte. */
  lemma DirectColorKinds()
    ensures forall j :: 20 <= j < 29 ==> Layout[j] == U8
  {
    var pre := Mandatory + Vbe12;
    var post := Vbe20 + Vbe30 + Remainder;
    assert |pre| == 20;
    assert Layout == pre + DirectColor + post;
    forall j | 20 <= j < 29
      ensures Layout[j] == U8
    {
      assert (pre + DirectColor + post)[j] == DirectColor[j - 20];
    }
  }

  lemma MaskOffsets()
    ensures Layout[20] == U8 && Layout[21] == U8 && Layout[22] == U8
    ensures Layout[23] == U8 && Layout[24] == U8 && Layout[25] == U8
    ensures Offset(Layout, 20) == 31 && Offset(Layout, 21) == 32 && Offset(Layout, 22) == 33
    ensures Offset(Layout, 23) == 34 && Offset(Layout, 24) == 35 && Offset(Layout, 25) == 36
  {
    DirectColorKinds();
    DirectColorStarts();
    DirectColorInLayout(0);
    DirectColorInLayout(1);
    DirectColorInLayout(2);
    DirectColorInLayout(3);
    DirectColorInLayout(4);
    DirectColorInLayout(5);
  }

  /** The decoder reads the resolution at bytes 18 and 20, BitsPerPixel at 25
      and MemoryModel at 27, whatever the revision. */
  lemma DecodeReadsGeometry(s: seq<bv8>)
    requires |s| == SIZE
    ensures Decode(s).XResolution == FromLe16(s[18..20])
    ensures Decode(s).YResolution == FromLe16(s[20..22])
    ensures Decode(s).BitsPerPixel == s[25]
    ensures Decode(s).MemoryModel == s[27]
  {
    LayoutSize();
    GeometryOffsets();
    var vs := Packing.Decode(Layout, s);
    DecodeAt(Layout, s, 9);
    DecodeAt(Layout, s, 10);
    DecodeAt(Layout, s, 14);
    DecodeAt(Layout, s, 16);
    Le16Inverse(vs[9].w);
    Le16Inverse(vs[10].w);
  }

  /** The decoder reads the red, green and blue mask sizes and field
      positions from bytes 31 to 36, whatever the memory model. */
  lemma DecodeReadsMasks(s: seq<bv8>)
    requires |s| == SIZE
    ensures Decode(s).RedMaskSize == s[31] && Decode(s).RedFieldPosition == s[32]
    ensures Decode(s).GreenMaskSize == s[33] && Decode(s).GreenFieldPosition == s[34]
    ensures Decode(s).BlueMaskSize == s[35] && Decode(s).BlueFieldPosition == s[36]
  {
    LayoutSize();
    MaskOffsets();
    var vs := Packing.Decode(Layout, s);
    DecodeAt(Layout, s, 20);
    DecodeAt(Layout, s, 21);
    DecodeAt(Layout, s, 22);
    DecodeAt(Layout, s, 23);
    DecodeAt(Layout, s, 24);
    DecodeAt(Layout, s, 25);
  }
}
