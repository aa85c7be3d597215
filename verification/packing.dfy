/** A packed C structure as a flat little-endian byte string.

    A structure declared with `__attribute__((packed))` has no padding: each
    field starts right after the previous one, so its offset is the sum of the
    widths of the fields declared before it. This module describes such a
    structure by its field layout (a sequence of field kinds in declaration
    order), and gives the generic encoder and decoder between a sequence of
    field values and the structure's bytes, with the offset and round-trip
    facts every concrete block in this project relies on. Multi-byte fields
    are little-endian, as on the x86 machine the firmware runs on.
 */
module Packing {

  /** The kinds of field the VBE blocks are made of: `uint8_t`, `uint16_t`,
      `uint32_t` (and `phys_bytes`, which is 32 bits wide here), and a
      `uint8_t` array of fixed length. */
  datatype Field = U8 | U16 | U32 | Bytes(n: nat)

  /** The value held in one field. */
  datatype Value = Byte(b: bv8) | Word(w: bv16) | DWord(d: bv32) | Raw(bytes: seq<bv8>)

  /** The contents of a value read as one kind; a value of another kind reads
      as zero or as no bytes. Records are rebuilt from decoded values with
      these. */
  function AsByte(v: Value): bv8 { if v.Byte? then v.b else 0 }
  function AsWord(v: Value): bv16 { if v.Word? then v.w else 0 }
  function AsDWord(v: Value): bv32 { if v.DWord? then v.d else 0 }
  function AsBytes(v: Value): seq<bv8> { if v.Raw? then v.bytes else [] }

  /** Number of bytes a field occupies. */
  function Width(f: Field): nat {
    match f
    case U8 => 1
    case U16 => 2
    case U32 => 4
    case Bytes(n) => n
  }

  /** True if `v` is a value of the kind `f` describes. */
  predicate Fits(v: Value, f: Field) {
    match f
    case U8 => v.Byte?
    case U16 => v.Word?
    case U32 => v.DWord?
    case Bytes(n) => v.Raw? && |v.bytes| == n
  }

  /** True if `vs` gives one value of the right kind to every field of `layout`. */
  predicate Conforms(vs: seq<Value>, layout: seq<Field>) {
    |vs| == |layout| && forall i :: 0 <= i < |layout| ==> Fits(vs[i], layout[i])
  }

  // ---------------------------------------------------------------------
  // Little-endian integers

  /** The two bytes of a 16-bit value, least significant first. */
  function Le16(w: bv16): (s: seq<bv8>)
    ensures |s| == 2
  {
    [(w & 0xFF) as bv8, (w >> 8) as bv8]
  }

  /** The 16-bit value stored little-endian in two bytes. */
  function FromLe16(s: seq<bv8>): (w: bv16)
    requires |s| == 2
    ensures Le16(w) == s
  {
    (s[1] as bv16 << 8) | s[0] as bv16
  }

  /** The four bytes of a 32-bit value, least significant first. */
  function Le32(d: bv32): (s: seq<bv8>)
    ensures |s| == 4
  {
    [(d & 0xFF) as bv8, ((d >> 8) & 0xFF) as bv8, ((d >> 16) & 0xFF) as bv8, (d >> 24) as bv8]
  }

  /** The 32-bit value stored little-endian in four bytes. */
  function FromLe32(s: seq<bv8>): (d: bv32)
    requires |s| == 4
    ensures Le32(d) == s
  {
    (s[3] as bv32 << 24) | (s[2] as bv32 << 16) | (s[1] as bv32 << 8) | s[0] as bv32
  }

  /** Reading back what `Le16` wrote gives the value written. */
  lemma Le16Inverse(w: bv16)
    ensures FromLe16(Le16(w)) == w
  {
  }

  /** Reading back what `Le32` wrote gives the value written. */
  lemma Le32Inverse(d: bv32)
    ensures FromLe32(Le32(d)) == d
  {
  }

  // ---------------------------------------------------------------------
  // One field

  /** The bytes of one field value. */
  function EncodeValue(v: Value): seq<bv8> {
    match v
    case Byte(b) => [b]
    case Word(w) => Le16(w)
    case DWord(d) => Le32(d)
    case Raw(bytes) => bytes
  }

  /** The value of kind `f` held in the `Width(f)` bytes `s`; every such byte
      string is the encoding of exactly the value decoded from it. */
  function DecodeValue(f: Field, s: seq<bv8>): (v: Value)
    requires |s| == Width(f)
    ensures Fits(v, f)
    ensures EncodeValue(v) == s
  {
    match f
    case U8 => Byte(s[0])
    case U16 => Word(FromLe16(s))
    case U32 => DWord(FromLe32(s))
    case Bytes(_) => Raw(s)
  }

  /** A value of kind `f` occupies `Width(f)` bytes and decodes back to itself. */
  lemma DecodeEncodeValue(f: Field, v: Value)
    requires Fits(v, f)
    ensures |EncodeValue(v)| == Width(f)
    ensures DecodeValue(f, EncodeValue(v)) == v
  {
    match f
    case U8 =>
    case U16 => Le16Inverse(v.w);
    case U32 => Le32Inverse(v.d);
    case Bytes(_) =>
  }

  // ---------------------------------------------------------------------
  // Sizes and offsets

  /** Total size of a packed layout: the sum of its field widths. */
  function Size(layout: seq<Field>): nat {
    if |layout| == 0 then 0 else Width(layout[0]) + Size(layout[1..])
  }

  /** Offset of field `i` in a packed layout: the size of the fields before it
      (`Offset(layout, |layout|)` is the size of the whole layout). */
  function Offset(layout: seq<Field>, i: nat): nat
    requires i <= |layout|
  {
    Size(layout[..i])
  }

  /** True if `offsets` is the table of field offsets of `layout` laid out with
      no padding, ending with the total size: it starts at 0 and each entry is
      the previous one plus the previous field's width. */
  predicate Packed(layout: seq<Field>, offsets: seq<nat>) {
    && |offsets| == |layout| + 1
    && offsets[0] == 0
    && forall i :: 0 <= i < |layout| ==> offsets[i + 1] == offsets[i] + Width(layout[i])
  }

  /** The size of two layouts one after the other. */
  lemma {:induction false} SizeAppend(a: seq<Field>, b: seq<Field>)
    ensures Size(a + b) == Size(a) + Size(b)
  {
    if |a| == 0 {
      assert a + b == b;
    } else {
      assert (a + b)[1..] == a[1..] + b;
      SizeAppend(a[1..], b);
    }
  }

  /** Adding a field at the end adds its width. */
  lemma {:induction false} SizeSnoc(a: seq<Field>, f: Field)
    ensures Size(a + [f]) == Size(a) + Width(f)
  {
    SizeAppend(a, [f]);
    assert [f][1..] == [];
  }

  /** Each field starts where the previous one ends. */
  lemma {:induction false} OffsetNext(layout: seq<Field>, i: nat)
    requires i < |layout|
    ensures Offset(layout, i + 1) == Offset(layout, i) + Width(layout[i])
  {
    assert layout[..i + 1] == layout[..i] + [layout[i]];
    SizeSnoc(layout[..i], layout[i]);
  }

  /** A table satisfying `Packed` is exactly the table of offsets, and its last
      entry is the total size. */
  lemma {:induction false} PackedOffsets(layout: seq<Field>, offsets: seq<nat>)
    requires Packed(layout, offsets)
    ensures forall i :: 0 <= i <= |layout| ==> Offset(layout, i) == offsets[i]
    ensures Size(layout) == offsets[|layout|]
  {
    forall i | 0 <= i <= |layout|
      ensures Offset(layout, i) == offsets[i]
    {
      PackedPrefix(layout, offsets, i);
    }
    PackedSize(layout, offsets);
  }

  /** The last entry of a packed offset table is the size of the layout. */
  lemma PackedSize(layout: seq<Field>, offsets: seq<nat>)
    requires Packed(layout, offsets)
    ensures Size(layout) == offsets[|layout|]
  {
    PackedPrefix(layout, offsets, |layout|);
    assert layout[..|layout|] == layout;
  }

  lemma {:induction false} PackedPrefix(layout: seq<Field>, offsets: seq<nat>, i: nat)
    requires Packed(layout, offsets)
    requires i <= |layout|
    ensures Offset(layout, i) == offsets[i]
    decreases i
  {
    if i == 0 {
      assert layout[..0] == [];
    } else {
      PackedPrefix(layout, offsets, i - 1);
      OffsetNext(layout, i - 1);
    }
  }

  /** Fields of the second of two concatenated layouts are shifted by the size
      of the first. */
  lemma {:induction false} OffsetAppend(a: seq<Field>, b: seq<Field>, i: nat)
    requires i <= |b|
    ensures Offset(a + b, |a| + i) == Size(a) + Offset(b, i)
  {
    var p := (a + b)[..|a| + i];
    assert p == a + b[..i];
    SizeAppend(a, b[..i]);
  }

  /** Past the first field, offsets are those of the remaining fields shifted
      by the first field's width. */
  lemma {:induction false} OffsetTail(layout: seq<Field>, i: nat)
    requires 0 < i <= |layout|
    ensures Offset(layout, i) == Width(layout[0]) + Offset(layout[1..], i - 1)
  {
    var p := layout[..i];
    assert p[0] == layout[0];
    assert p[1..] == layout[1..][..i - 1];
  }

  /** Fields of the first of two concatenated layouts keep their offsets. */
  lemma {:induction false} OffsetPrefix(a: seq<Field>, b: seq<Field>, i: nat)
    requires i <= |a|
    ensures Offset(a + b, i) == Offset(a, i)
  {
    assert (a + b)[..i] == a[..i];
  }

  /** A field of a group placed between two other layouts sits at the size of
      what precedes the group plus its offset inside the group. */
  lemma {:induction false} OffsetInGroup(pre: seq<Field>, g: seq<Field>, post: seq<Field>, j: nat)
    requires j <= |g|
    ensures Offset(pre + g + post, |pre| + j) == Size(pre) + Offset(g, j)
  {
    OffsetPrefix(pre + g, post, |pre| + j);
    OffsetAppend(pre, g, j);
  }

  // ---------------------------------------------------------------------
  // Whole structures

  /** The bytes of a packed structure: its field values one after the other. */
  function Encode(layout: seq<Field>, vs: seq<Value>): (s: seq<bv8>)
    requires Conforms(vs, layout)
    ensures |s| == Size(layout)
    decreases |layout|
  {
    if |layout| == 0 then []
    else
      DecodeEncodeValue(layout[0], vs[0]);
      EncodeValue(vs[0]) + Encode(layout[1..], vs[1..])
  }

  /** The field values of a packed structure read from its bytes. Re-encoding
      them gives back the same bytes, so no byte of the block is lost. */
  function Decode(layout: seq<Field>, s: seq<bv8>): (vs: seq<Value>)
    requires |s| == Size(layout)
    ensures Conforms(vs, layout)
    ensures Encode(layout, vs) == s
    decreases |layout|
  {
    if |layout| == 0 then []
    else
      var w := Width(layout[0]);
      [DecodeValue(layout[0], s[..w])] + Decode(layout[1..], s[w..])
  }

  /** Decoding the bytes of a structure gives back its field values. */
  lemma {:induction false} DecodeEncode(layout: seq<Field>, vs: seq<Value>)
    requires Conforms(vs, layout)
    ensures Decode(layout, Encode(layout, vs)) == vs
    decreases |layout|
  {
    if |layout| > 0 {
      var s := Encode(layout, vs);
      DecodeEncodeValue(layout[0], vs[0]);
      var w := Width(layout[0]);
      assert s[..w] == EncodeValue(vs[0]);
      assert s[w..] == Encode(layout[1..], vs[1..]);
      DecodeEncode(layout[1..], vs[1..]);
    }
  }

  /** Field `i` occupies the `Width(layout[i])` bytes from `Offset(layout, i)`. */
  lemma {:induction false} EncodeAt(layout: seq<Field>, vs: seq<Value>, i: nat)
    requires Conforms(vs, layout)
    requires i < |layout|
    ensures Offset(layout, i) + Width(layout[i]) <= Size(layout)
    ensures Encode(layout, vs)[Offset(layout, i)..Offset(layout, i) + Width(layout[i])] == EncodeValue(vs[i])
    decreases i
  {
    var s := Encode(layout, vs);
    DecodeEncodeValue(layout[0], vs[0]);
    var w := Width(layout[0]);
    var tail := Encode(layout[1..], vs[1..]);
    assert s == EncodeValue(vs[0]) + tail;
    if i == 0 {
      assert layout[..0] == [];
    } else {
      EncodeAt(layout[1..], vs[1..], i - 1);
      OffsetTail(layout, i);
      var lo := Offset(layout[1..], i - 1);
      var hi := lo + Width(layout[i]);
      assert tail[lo..hi] == EncodeValue(vs[i]);
      SliceShift(EncodeValue(vs[0]), tail, lo, hi);
    }
  }

  /** A slice of the second part of a concatenation. */
  lemma SliceShift(a: seq<bv8>, b: seq<bv8>, lo: nat, hi: nat)
    requires lo <= hi <= |b|
    ensures (a + b)[|a| + lo..|a| + hi] == b[lo..hi]
  {
  }

  /** Field `i` of a decoded structure is read from the `Width(layout[i])` bytes
      at `Offset(layout, i)`. */
  lemma DecodeAt(layout: seq<Field>, s: seq<bv8>, i: nat)
    requires |s| == Size(layout)
    requires i < |layout|
    ensures Offset(layout, i) + Width(layout[i]) <= |s|
    ensures Decode(layout, s)[i] == DecodeValue(layout[i], s[Offset(layout, i)..Offset(layout, i) + Width(layout[i])])
  {
    var vs := Decode(layout, s);
    EncodeAt(layout, vs, i);
    DecodeEncodeValue(layout[i], vs[i]);
  }

  /** A value list conforms to two concatenated layouts exactly when its two
      parts conform to the two layouts. */
  lemma ConformsAppend(va: seq<Value>, vb: seq<Value>, a: seq<Field>, b: seq<Field>)
    ensures |va| == |a| ==> (Conforms(va + vb, a + b) <==> Conforms(va, a) && Conforms(vb, b))
  {
    if |va| == |a| && Conforms(va, a) && Conforms(vb, b) {
      forall i | 0 <= i < |a + b|
        ensures Fits((va + vb)[i], (a + b)[i])
      {
        if i >= |a| {
          assert (va + vb)[i] == vb[i - |a|];
        }
      }
    }
    if |va| == |a| && Conforms(va + vb, a + b) {
      forall i | 0 <= i < |b|
        ensures Fits(vb[i], b[i])
      {
        assert (va + vb)[|a| + i] == vb[i];
        assert (a + b)[|a| + i] == b[i];
      }
      forall i | 0 <= i < |a|
        ensures Fits(va[i], a[i])
      {
        assert (va + vb)[i] == va[i];
      }
    }
  }
}
