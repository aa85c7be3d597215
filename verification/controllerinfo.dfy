/** The packed `vbe_info_block` structure: the 512-byte VbeInfoBlock that VBE
    Function 00h (Return VBE Controller Information) writes, section 4.3 of
    the VESA BIOS Extension Core Functions Standard 3.0.

    As with the ModeInfoBlock, the structure is decoded in full: the header
    declares no check of the signature or the version, and the far pointers
    it holds are kept as the raw 32-bit words the firmware stored.
 */
module ControllerInfo {
  import opened Packing

  /** One VbeInfoBlock, field by field in declaration order. */
  datatype VbeInfoBlock = VbeInfoBlock(
    VBEsignature: seq<bv8>,
    VbeVersion: bv16,
    OemStringPtr: bv32,
    Capabilities: seq<bv8>,
    VideoModePtr: bv32,
    TotalMemory: bv16,
    OemSoftwareRev: bv16,
    OemVendorNamePtr: bv32,
    OemProductNamePtr: bv32,
    OemProductRevPtr: bv32,
    Reserved: seq<bv8>,
    OemData: seq<bv8>)
  {
    /** The fixed-length arrays have their declared lengths. */
    predicate Valid() {
      |VBEsignature| == 4 && |Capabilities| == 4 && |Reserved| == 222 && |OemData| == 256
    }
  }

  /** The field kinds in declaration order, and their packed offsets: the
      ten information fields, then the reserved scratch area and the OEM data
      area. */
  const Layout: seq<Field> := Information + Areas
  const Information: seq<Field> := [Bytes(4), U16, U32, Bytes(4), U32, U16, U16, U32, U32, U32]
  const Areas: seq<Field> := [Bytes(222), Bytes(256)]
  const Offsets: seq<nat> := [0, 4, 6, 10, 14, 18, 20, 22, 26, 30, 34, 256, 512]

  /** Size of the packed structure in bytes. */
  const SIZE: nat := 512

  /** Positions of some fields in the layout (their declaration index). */
  const SIGNATURE: nat := 0
  const VERSION: nat := 1
  const VIDEO_MODE_PTR: nat := 4
  const TOTAL_MEMORY: nat := 5
  const OEM_DATA: nat := 11

  // ---------------------------------------------------------------------
  // Between the record and its field values


  /** The field values of a record, in declaration order. */
  function Values(b: VbeInfoBlock): seq<Value> {
    [Raw(b.VBEsignature), Word(b.VbeVersion), DWord(b.OemStringPtr), Raw(b.Capabilities),
     DWord(b.VideoModePtr), Word(b.TotalMemory), Word(b.OemSoftwareRev), DWord(b.OemVendorNamePtr),
     DWord(b.OemProductNamePtr), DWord(b.OemProductRevPtr), Raw(b.Reserved), Raw(b.OemData)]
  }

  /** The record whose field values are `vs`, in declaration order. */
  function FromValues(vs: seq<Value>): VbeInfoBlock
    requires |vs| == |Layout|
  {
    VbeInfoBlock(AsBytes(vs[0]), AsWord(vs[1]), AsDWord(vs[2]), AsBytes(vs[3]), AsDWord(vs[4]), AsWord(vs[5]), AsWord(vs[6]), AsDWord(vs[7]),
      AsDWord(vs[8]), AsDWord(vs[9]), AsBytes(vs[10]), AsBytes(vs[11]))
  }

  // ---------------------------------------------------------------------
  // The codec

  /** The 512 bytes of a well-formed VbeInfoBlock: every field at its packed
      offset, multi-byte fields little-endian. */
  function Encode(b: VbeInfoBlock): (s: seq<bv8>)
    requires b.Valid()
    ensures |s| == SIZE
    ensures s[0..4] == b.VBEsignature
    ensures s[4..6] == Le16(b.VbeVersion)
    ensures s[14..18] == Le32(b.VideoModePtr)
    ensures s[18..20] == Le16(b.TotalMemory)
    ensures s[256..] == b.OemData
  {
    LayoutSize();
    FieldOffsets();
    ValuesConform(b);
    var vs := Values(b);
    EncodeAt(Layout, vs, SIGNATURE);
    EncodeAt(Layout, vs, VERSION);
    EncodeAt(Layout, vs, VIDEO_MODE_PTR);
    EncodeAt(Layout, vs, TOTAL_MEMORY);
    EncodeAt(Layout, vs, OEM_DATA);
    Packing.Encode(Layout, vs)
  }

  /** The VbeInfoBlock held in a 512-byte buffer: every buffer decodes, and
      re-encoding the result gives back the buffer byte for byte. */
  function Decode(s: seq<bv8>): (b: VbeInfoBlock)
    requires |s| == SIZE
    ensures b.Valid()
    ensures Encode(b) == s
  {
    LayoutSize();
    var vs := Packing.Decode(Layout, s);
    ValuesFromValues(vs);
    FromValues(vs)
  }

  /** Decoding the bytes of a well-formed block gives back the block. */
  lemma DecodeEncode(b: VbeInfoBlock)
    requires b.Valid()
    ensures Decode(Encode(b)) == b
  {
    LayoutSize();
    ValuesConform(b);
    Packing.DecodeEncode(Layout, Values(b));
  }

  /** The decoder reads the signature from bytes 0 to 3, VbeVersion from 4,
      VideoModePtr from 14, TotalMemory from 18 and OemData from 256 to 511. */
  lemma DecodeReadsOffsets(s: seq<bv8>)
    requires |s| == SIZE
    ensures Decode(s).VBEsignature == s[0..4]
    ensures Decode(s).VbeVersion == FromLe16(s[4..6])
    ensures Decode(s).VideoModePtr == FromLe32(s[14..18])
    ensures Decode(s).TotalMemory == FromLe16(s[18..20])
    ensures Decode(s).OemData == s[256..]
  {
    var b := Decode(s);
    Le16Inverse(b.VbeVersion);
    Le32Inverse(b.VideoModePtr);
    Le16Inverse(b.TotalMemory);
  }

  /** The ASCII signature "VESA" the firmware writes into a valid block. */
  const VESA: seq<bv8> := [0x56, 0x45, 0x53, 0x41]

  /** A reply starting with "VESA" and the version bytes 00h 02h decodes to
      that signature and to VbeVersion 0200h (VBE 2.0). */
  lemma VersionTwoReply(s: seq<bv8>)
    requires |s| == SIZE
    requires s[0..4] == VESA && s[4] == 0x00 && s[5] == 0x02
    ensures Decode(s).VBEsignature == VESA
    ensures Decode(s).VbeVersion == 0x0200
  {
    DecodeReadsOffsets(s);
    assert s[4..6] == [0x00, 0x02];
  }

  // ---------------------------------------------------------------------
  // Layout facts

  /** The offset table is the packed layout of the structure. */
  lemma LayoutTable()
    ensures Packed(Layout, Offsets)
  {
  }

  /** The structure has 12 fields and is 512 bytes, as section 4.3 of VBE 3.0
      requires of the VbeInfoBlock. */
  lemma LayoutSize()
    ensures |Layout| == 12
    ensures Size(Layout) == SIZE
  {
    LayoutTable();
    PackedSize(Layout, Offsets);
  }

  /** The signature fills bytes 0 to 3, VbeVersion is at 4, VideoModePtr at 14,
      TotalMemory at 18, and OemData fills 256 to 511. */
  lemma FieldOffsets()
    ensures Offset(Layout, SIGNATURE) == 0
    ensures Offset(Layout, VERSION) == 4
    ensures Offset(Layout, VIDEO_MODE_PTR) == 14
    ensures Offset(Layout, TOTAL_MEMORY) == 18
    ensures Offset(Layout, OEM_DATA) == 256
  {
    LayoutTable();
    PackedPrefix(Layout, Offsets, SIGNATURE);
    PackedPrefix(Layout, Offsets, VERSION);
    PackedPrefix(Layout, Offsets, VIDEO_MODE_PTR);
    PackedPrefix(Layout, Offsets, TOTAL_MEMORY);
    PackedPrefix(Layout, Offsets, OEM_DATA);
  }

  /** A well-formed record gives a value of the right kind to every field. */
  lemma ValuesConform(b: VbeInfoBlock)
    requires b.Valid()
    ensures Conforms(Values(b), Layout)
  {
  }

  /** Field values that conform to the layout are the values of the record
      built from them. */
  lemma ValuesFromValues(vs: seq<Value>)
    requires Conforms(vs, Layout)
    ensures FromValues(vs).Valid()
    ensures Values(FromValues(vs)) == vs
  {
    assert Fits(vs[0], Bytes(4)) && Fits(vs[1], U16) && Fits(vs[2], U32) && Fits(vs[3], Bytes(4));
    assert Fits(vs[4], U32) && Fits(vs[5], U16) && Fits(vs[6], U16) && Fits(vs[7], U32);
    assert Fits(vs[8], U32) && Fits(vs[9], U32) && Fits(vs[10], Bytes(222)) && Fits(vs[11], Bytes(256));
  }
}
