# VBE header model

A Dafny model of `LAB5/vbe.h`, the VESA BIOS Extension (VBE) header of a
Minix graphics driver. The header describes everything the driver needs to
call the video BIOS through the real-mode bridge and to read the answers:

- the four `PB2*` macros that cut a 32-bit physical address into a real-mode
  segment and offset (the ES:DI buffer pointer of a call);
- the packed 256-byte `vbe_mode_info_t` (ModeInfoBlock, VBE Function 01h) and
  the packed 512-byte `vbe_info_block` (VbeInfoBlock, VBE Function 00h);
- the constants of the interface: the AX function selectors, the AH status
  codes, the standard mode numbers, the linear frame buffer bit D14 and the
  terminator of the supported-mode list.

The model is split by the header's concerns:

- `packing.dfy` (`Packing`): a packed C structure as a list of field kinds.
  Fields are stored little-endian with no padding and sit at the prefix sums
  of the field widths. The generic encoder and decoder are proved inverse in
  both directions, and field `i` is proved to be read from its own offset.
- `realmode.dfy` (`RealMode`): the `PB2*` macros on `bv32`, real-mode far
  pointers, and how a buffer address travels as a segment:offset pair.
- `modeinfo.dfy` (`ModeInfo`): the ModeInfoBlock. It has 45 fields in the
  header's revision groups: mandatory, VBE 1.2, direct colour, VBE 2.0,
  VBE 3.0 and the remainder.
- `controllerinfo.dfy` (`ControllerInfo`): the VbeInfoBlock.
- `vbe.dfy` (`Vbe`): the constants, the register sets of the four calls the
  constants are for, the status interpretation, and the outcome of
  `vbe_get_mode_info` / `vbe_get_info_block` given what the firmware returned.

The BIOS call itself is not modelled. `GetModeInfo` and `GetInfoBlock` take
two parameters in its place: the AX value the firmware returned and the
bytes it wrote into the buffer. Layouts and request registers follow the VESA
BIOS Extension Core Functions Standard 3.0 (sections 4.3, 4.4 and 4.5).

`phys_bytes` is the driver's 32-bit physical-address type. With it as four
bytes the ModeInfoBlock totals the 256 bytes the standard requires.

## Model

| member | source | states |
|---|---|---|
| RealMode.Pb2Base | LAB5/vbe.h:36 | the segment is at most F000h with its low 12 bits clear, and 16 times it is the 64 KiB block of `x` inside the first MiB |
| RealMode.Pb2Off | LAB5/vbe.h:37 | the offset fits in 16 bits, and `x` minus it is a whole number of 64 KiB blocks |
| RealMode.Pb2OffBlock | LAB5/vbe.h:38 | the block start shares no bit with PB2OFF and adds up with it to `x` |
| RealMode.Pb2BaseBlock | LAB5/vbe.h:39 | only the top four bits survive; they are bits of `x`, and `x` lies less than 256 MiB above the result |
| RealMode.SegmentOffsetSplit | LAB5/vbe.h:36-37 | PB2BASE:PB2OFF taken as a real-mode pointer designates `x` modulo 1 MiB, so it is `x` exactly when `x` is below 1 MiB |
| RealMode.OffIdempotent | LAB5/vbe.h:37 | PB2OFF applied twice equals PB2OFF applied once |
| RealMode.OffBlockIdempotent | LAB5/vbe.h:38 | PB2OFFBLOCK applied twice equals PB2OFFBLOCK applied once |
| RealMode.BaseBlockIdempotent | LAB5/vbe.h:39 | PB2BASEBLOCK applied twice equals PB2BASEBLOCK applied once |
| RealMode.BaseBlockOfOffBlock | LAB5/vbe.h:38-39 | the 256 MiB region of an address's 64 KiB block is the region of the address |
| RealMode.BaseTwice | LAB5/vbe.h:36 | PB2BASE is not idempotent: applied twice it always yields 0 |
| RealMode.Linear | LAB5/vbe.h:35-37 | a segment:offset pair designates at most 10FFEFh, so 32 bits never wrap, and the low nibble is the offset's |
| RealMode.Split | LAB5/vbe.h:36-37 | the ES:DI pair made from `x` has a 64 KiB-aligned segment and designates `x` modulo 1 MiB, hence `x` exactly below 1 MiB |
| RealMode.FarWord | LAB5/vbe.h:126 | a far pointer is stored in a 32-bit field with the segment in the high word and the offset in the low word |
| RealMode.FarWordRoundTrip | LAB5/vbe.h:126 | reading a stored far pointer gives back the pointer stored |
| RealMode.FarWordLinear | LAB5/vbe.h:37-38 | the address a stored far pointer designates is its PB2OFFBLOCK part shifted down by 12 plus its PB2OFF part |
| RealMode.FromFarWord | LAB5/vbe.h:126 | every 32-bit far-pointer field is the stored form (segment high, offset low) of the pointer read from it |
| RealMode.FarWordResolves | LAB5/vbe.h:36-37 | a buffer below 1 MiB, split by the macros and stored as a far-pointer word, resolves to its own address |
| Packing.Decode | LAB5/vbe.h:115 | every byte string of a packed layout's size decodes to values of the declared kinds that re-encode to the same bytes |
| Packing.Encode | LAB5/vbe.h:115 | a packed structure occupies exactly the sum of its field widths, with no padding |
| Packing.DecodeEncode | LAB5/vbe.h:115 | decoding the bytes of well-formed field values gives back the values |
| Packing.EncodeAt | LAB5/vbe.h:115 | field `i` is stored, little-endian, in the bytes at its packed offset |
| Packing.DecodeAt | LAB5/vbe.h:115 | field `i` is read from the bytes at its packed offset |
| Packing.PackedOffsets | LAB5/vbe.h:115 | an offset table starting at 0 and advancing by each field's width is the table of packed offsets, and its last entry is the size |
| ModeInfo.Encode | LAB5/vbe.h:58-115 | a ModeInfoBlock is 256 bytes, with PhysBasePtr at 40, LinBytesPerScanLine at 50, MaxPixelClock at 62 and Reserved4 filling 66 to 255 |
| ModeInfo.Decode | LAB5/vbe.h:58-115 | every 256-byte reply is a well-formed ModeInfoBlock whose encoding is the reply byte for byte |
| ModeInfo.DecodeEncode | LAB5/vbe.h:58-115 | decoding the bytes of a well-formed ModeInfoBlock gives back the block |
| ModeInfo.LayoutSize | LAB5/vbe.h:58-115 | the structure has 45 fields and is 256 bytes |
| ModeInfo.GroupSizes | LAB5/vbe.h:59-114 | the revision groups occupy 18, 13, 9, 10, 16 and 190 bytes |
| ModeInfo.FieldOffsets | LAB5/vbe.h:96-114 | PhysBasePtr is a dword at 40, LinBytesPerScanLine a word at 50, MaxPixelClock a dword at 62, Reserved4 190 bytes at 66 |
| ModeInfo.GeometryOffsets | LAB5/vbe.h:70-79 | XResolution and YResolution are words at 18 and 20, BitsPerPixel a byte at 25, MemoryModel a byte at 27 |
| ModeInfo.MaskOffsets | LAB5/vbe.h:84-90 | the direct colour mask sizes and positions are the bytes 31 to 36 |
| ModeInfo.DecodeReadsOffsets | LAB5/vbe.h:96-114 | the decoder takes PhysBasePtr, LinBytesPerScanLine and MaxPixelClock little-endian from their offsets, and Reserved4 from the tail |
| ModeInfo.DecodeReadsGeometry | LAB5/vbe.h:70-79 | the decoder takes the resolution, BitsPerPixel and MemoryModel from bytes 18, 20, 25 and 27 |
| ModeInfo.DecodeReadsMasks | LAB5/vbe.h:84-90 | the decoder takes the red, green and blue mask sizes and positions from bytes 31 to 36 |
| ModeInfo.ValuesFromValues | LAB5/vbe.h:58-115 | field values of the declared kinds are the values of the record built from them, so no field is dropped or retyped |
| ControllerInfo.Encode | LAB5/vbe.h:120-135 | a VbeInfoBlock is 512 bytes with the signature at 0, VbeVersion at 4, VideoModePtr at 14, TotalMemory at 18, OemData filling 256 to 511 |
| ControllerInfo.Decode | LAB5/vbe.h:120-135 | every 512-byte reply is a well-formed VbeInfoBlock whose encoding is the reply byte for byte |
| ControllerInfo.DecodeEncode | LAB5/vbe.h:120-135 | decoding the bytes of a well-formed VbeInfoBlock gives back the block |
| ControllerInfo.LayoutSize | LAB5/vbe.h:120-135 | the structure has 12 fields and is 512 bytes |
| ControllerInfo.FieldOffsets | LAB5/vbe.h:122-133 | the signature, VbeVersion, VideoModePtr, TotalMemory and OemData sit at 0, 4, 14, 18 and 256 |
| ControllerInfo.DecodeReadsOffsets | LAB5/vbe.h:122-133 | the decoder reads those fields from those offsets, little-endian |
| ControllerInfo.VersionTwoReply | LAB5/vbe.h:122-123 | a reply starting "VESA", 00h, 02h decodes to that signature and VbeVersion 0200h |
| ControllerInfo.ValuesFromValues | LAB5/vbe.h:120-135 | field values of the declared kinds are the values of the record built from them |
| Vbe.Ax | LAB5/vbe.h:20 | AX is built from its AH and AL halves, which read back unchanged |
| Vbe.AxHalves | LAB5/vbe.h:20 | every AX is made of its two halves |
| Vbe.Selector | LAB5/vbe.h:41-46 | a VBE selector holds VBE_FUNCTION in AH and the function number in AL |
| Vbe.SelectorConstants | LAB5/vbe.h:41-46 | VBE_CONTROLLER_INFO, VBE_MODE_INFO and SET_VBE_MODE are 4Fh in AH with functions 00h, 01h and 02h |
| Vbe.StatusOf | LAB5/vbe.h:20-25 | AH reports success exactly when it is 00h, an unlisted status exactly above 03h, and the status maps back to AH |
| Vbe.StatusRoundTrip | LAB5/vbe.h:22-25 | each status is recovered from its AH code |
| Vbe.WithLinear | LAB5/vbe.h:18 | requesting the linear frame buffer sets bit D14 and keeps every other bit |
| Vbe.WithoutLinear | LAB5/vbe.h:18 | clearing the linear bit clears D14 and keeps every other bit |
| Vbe.LinearRoundTrip | LAB5/vbe.h:18 | setting then clearing D14 restores the mode number exactly when D14 was clear |
| Vbe.StandardModes | LAB5/vbe.h:30-33 | the four standard modes are distinct, below D14, and survive setting and clearing the linear bit |
| Vbe.ControllerInfoCall | LAB5/vbe.h:35-45 | Function 00h goes through INT 10h with AX 4F00h and ES:DI designating the buffer when it is below 1 MiB |
| Vbe.ModeInfoCall | LAB5/vbe.h:35-45 | Function 01h goes through INT 10h with AX 4F01h, the mode in CX and ES:DI designating the buffer when it is below 1 MiB |
| Vbe.SetModeCall | LAB5/vbe.h:18 | Function 02h sets D14 in BX, and clearing it gives back any mode number below D14 |
| Vbe.TextModeCall | LAB5/vbe.h:40-50 | the return to text mode is INT 10h with AH 00h and AL 03h (80x25) |
| Vbe.GetModeInfo | LAB5/vbe.h:137-149 | success (the C function's 0) exactly when AH is 00h, and then the block holds the 256 reply bytes; otherwise the non-success status AH reported |
| Vbe.GetInfoBlock | LAB5/vbe.h:151 | success exactly when AH is 00h, and then the block holds the 512 reply bytes; otherwise the non-success status AH reported |
| Vbe.ModeListAddress | LAB5/vbe.h:126 | the mode list's physical address is the segment word of VideoModePtr that PB2OFFBLOCK keeps, moved down to segment times 16, plus the offset word PB2OFF keeps |
| Vbe.ModeListAddressResolves | LAB5/vbe.h:126 | whatever far pointer the firmware stores in VideoModePtr, the list address is the physical address that pointer designates |
| Vbe.ModeList | LAB5/vbe.h:56 | the mode list is the longest prefix of the words without VIDEOPTR_FINAL, stopped by the terminator when one is present |
| Vbe.ModeListTerminated | LAB5/vbe.h:56 | mode numbers followed by FFFFh read back as those mode numbers, whatever follows |

## Left out

- `LAB4/lab4.c` is not part of this model: it is the command-line glue of an earlier lab and uses nothing in this header.
- The INT 10h call through the real-mode bridge is not modelled. `GetModeInfo` and `GetInfoBlock` take the returned AX and the buffer contents as parameters.
- The bodies of `vbe_get_mode_info` and `vbe_get_info_block` are not in the header. The model gives their outcome from AH and the reply bytes, and builds the request registers (`ControllerInfoCall`, `ModeInfoCall`) as the VBE standard prescribes.
- Vbe.GetInfoBlock: returns the decoded block, not the `uint16_t*` the C function returns. That pointer is the mode list mapped into the driver's virtual memory, and the mapping is an operating-system call. `ModeListAddress` and `ModeList` model the physical address and the list contents instead.
- Reading memory through a far pointer is not modelled (the mode list, the OEM strings). `ModeList` takes the words at the list's address as a parameter.
- `display_vbe_block_info` is not modelled: it only prints.
- `bit` is not modelled: the header declares it without a body. Neither are the Capabilities bit numbers `DAC`, `VGA` and `RAMDAC` (vbe.h:53-55), which no code in the header uses.
- The decoders do not check the "VESA" signature and do not pre-fill "VBE2". Nothing in the header does either. `VersionTwoReply` only shows what such a reply decodes to.
- Revision gating and direct-colour gating are not modelled. The header's group comments only say when each group is meaningful; the structure always holds every field, so the decoder reads them all whatever the version or memory model.
- The mode information decoder accepts every 256-byte reply, the all-zero one included: the header singles out no reply as invalid.
- Vbe.StatusOf: reads only AH. The AL = 4Fh "function supported" byte is not interpreted, because the header defines only the AH meanings.
