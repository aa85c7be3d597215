/** The VBE interface constants and the contract of the two information
    queries.

    A VBE call is a real-mode `INT 10h` with AH = 4Fh (VBE_FUNCTION) and AL
    the function number; the firmware answers in AX, AH holding the status.
    The interrupt itself is foreign: here a call is the register values the
    driver passes in, and its outcome is the AX the firmware returned together
    with the bytes it wrote into the buffer.
 */
module Vbe {
  import RealMode
  import ModeInfo
  import ControllerInfo

  // ---------------------------------------------------------------------
  // Constants

  /** Bit D14 of a mode number asks Function 02h for the linear frame buffer
      (section 4.5 of VBE 3.0). */
  const LINEAR_MODEL_BIT: nat := 14

  /** Status codes returned in AH. */
  const FUNCTION_CALL_SUCCESSFUL: bv8 := 0x00
  const FUNCTION_CALL_FAILED: bv8 := 0x01
  const FUNCTION_NOT_SUPPORTED: bv8 := 0x02
  const FUNCTION_INVALID: bv8 := 0x03

  /** The standard VBE mode numbers for 640x480, 800x600, 1024x768 and
      1280x1024 graphics. */
  const MODE_640x480: bv16 := 0x101
  const MODE_800x600: bv16 := 0x103
  const MODE_1024x768: bv16 := 0x105
  const MODE_1280x1024: bv16 := 0x107
  const STANDARD_MODES: seq<bv16> := [MODE_640x480, MODE_800x600, MODE_1024x768, MODE_1280x1024]

  /** The BIOS video service, and its non-VBE function 00h (set video mode)
      with the 80x25 text mode. */
  const VBE_INTERRUPT: bv8 := 0x10
  const VBE_VIDEO_MODE: bv8 := 0x00
  const SET_TEXT_MODE: bv8 := 0x03
  const TEXT_MODE_80x25: bv8 := 0x03

  /** AH of every VBE call, and the AX selectors of Functions 00h, 01h, 02h. */
  const VBE_FUNCTION: bv8 := 0x4F
  const VBE_CONTROLLER_INFO: bv16 := 0x4F00
  const VBE_MODE_INFO: bv16 := 0x4F01
  const SET_VBE_MODE: bv16 := 0x4F02

  /** The word that ends the list of mode numbers VideoModePtr points to. */
  const VIDEOPTR_FINAL: bv16 := 0x0FFFF

  // ---------------------------------------------------------------------
  // AX as AH:AL

  function Ah(ax: bv16): bv8 { (ax >> 8) as bv8 }
  function Al(ax: bv16): bv8 { (ax & 0xFF) as bv8 }

  /** The AX register holding `ah` in its high byte and `al` in its low byte. */
  function Ax(ah: bv8, al: bv8): (ax: bv16)
    ensures Ah(ax) == ah && Al(ax) == al
  {
    ((ah as bv16) << 8) | al as bv16
  }

  /** Every AX is made of its two halves. */
  lemma AxHalves(ax: bv16)
    ensures Ax(Ah(ax), Al(ax)) == ax
  {
  }

  /** The AX that selects VBE function `service`. */
  function Selector(service: bv8): (ax: bv16)
    ensures Ah(ax) == VBE_FUNCTION && Al(ax) == service
  {
    Ax(VBE_FUNCTION, service)
  }

  /** The three selectors are VBE_FUNCTION shifted into AH with the function
      number 00h, 01h, 02h in AL. */
  lemma SelectorConstants()
    ensures VBE_CONTROLLER_INFO == ((VBE_FUNCTION as bv16) << 8) | 0x00 == Selector(0x00)
    ensures VBE_MODE_INFO == ((VBE_FUNCTION as bv16) << 8) | 0x01 == Selector(0x01)
    ensures SET_VBE_MODE == ((VBE_FUNCTION as bv16) << 8) | 0x02 == Selector(0x02)
  {
  }

  // ---------------------------------------------------------------------
  // Status

  /** The meaning of the status byte AH. */
  datatype Status = Successful | Failed | NotSupported | Invalid | Unknown(code: bv8)

  /** The status a returned AH reports; only 00h is success. */
  function StatusOf(ah: bv8): (st: Status)
    ensures st.Successful? <==> ah == FUNCTION_CALL_SUCCESSFUL
    ensures st.Unknown? <==> ah > FUNCTION_INVALID
    ensures StatusCode(st) == ah
  {
    if ah == FUNCTION_CALL_SUCCESSFUL then Successful
    else if ah == FUNCTION_CALL_FAILED then Failed
    else if ah == FUNCTION_NOT_SUPPORTED then NotSupported
    else if ah == FUNCTION_INVALID then Invalid
    else Unknown(ah)
  }

  /** The AH byte that reports a status. */
  function StatusCode(st: Status): bv8 {
    match st
    case Successful => FUNCTION_CALL_SUCCESSFUL
    case Failed => FUNCTION_CALL_FAILED
    case NotSupported => FUNCTION_NOT_SUPPORTED
    case Invalid => FUNCTION_INVALID
    case Unknown(code) => code
  }

  /** Every status other than an unknown one reusing a known code is read back
      from its AH byte. */
  lemma StatusRoundTrip(st: Status)
    requires st.Unknown? ==> st.code > FUNCTION_INVALID
    ensures StatusOf(StatusCode(st)) == st
  {
  }

  // ---------------------------------------------------------------------
  // Mode numbers and the linear frame buffer bit

  /** The mode-number bit D14. */
  const LINEAR_FLAG: bv16 := 1 << LINEAR_MODEL_BIT

  /** A mode number with the linear frame buffer requested; all other bits are
      kept. */
  function WithLinear(mode: bv16): (m: bv16)
    ensures m & LINEAR_FLAG != 0
    ensures m & !LINEAR_FLAG == mode & !LINEAR_FLAG
  {
    mode | LINEAR_FLAG
  }

  /** A mode number with the linear frame buffer bit cleared; all other bits
      are kept. */
  function WithoutLinear(mode: bv16): (m: bv16)
    ensures m & LINEAR_FLAG == 0
    ensures m & !LINEAR_FLAG == mode & !LINEAR_FLAG
  {
    mode & !LINEAR_FLAG
  }

  /** Setting then clearing the linear bit restores the mode number exactly
      when its bit D14 was clear to begin with. */
  lemma LinearRoundTrip(mode: bv16)
    ensures WithoutLinear(WithLinear(mode)) == mode <==> mode & LINEAR_FLAG == 0
  {
  }

  /** The four standard modes are distinct, all below bit D14, and so survive
      setting and clearing the linear bit. */
  lemma StandardModes()
    ensures forall i, j :: 0 <= i < j < |STANDARD_MODES| ==> STANDARD_MODES[i] != STANDARD_MODES[j]
    ensures forall i :: 0 <= i < |STANDARD_MODES| ==>
      STANDARD_MODES[i] < LINEAR_FLAG && WithoutLinear(WithLinear(STANDARD_MODES[i])) == STANDARD_MODES[i]
  {
    forall i | 0 <= i < |STANDARD_MODES|
      ensures WithoutLinear(WithLinear(STANDARD_MODES[i])) == STANDARD_MODES[i]
    {
      LinearRoundTrip(STANDARD_MODES[i]);
    }
  }

  // ---------------------------------------------------------------------
  // The calls the constants are for

  /** The registers of a real-mode `INT` call the driver makes. */
  datatype Registers = Registers(intno: bv8, ax: bv16, bx: bv16, cx: bv16, es: bv16, di: bv16)

  /** The buffer pointer ES:DI of a call. */
  function Buffer(r: Registers): RealMode.FarPtr {
    RealMode.FarPtr(r.es, r.di)
  }

  /** Function 00h with its 512-byte buffer at physical address `buf`: ES:DI
      is PB2BASE:PB2OFF of `buf`, which is `buf` itself when it lies in the
      first MiB. */
  function ControllerInfoCall(buf: bv32): (r: Registers)
    ensures r.intno == VBE_INTERRUPT && r.ax == VBE_CONTROLLER_INFO
    ensures buf < RealMode.ONE_MIB ==> RealMode.Linear(Buffer(r)) == buf
  {
    var p := RealMode.Split(buf);
    Registers(VBE_INTERRUPT, Selector(0x00), 0, 0, p.segment, p.offset)
  }

  /** Function 01h for mode `mode` with its 256-byte buffer at physical address
      `buf`: the mode number in CX, ES:DI as for Function 00h. */
  function ModeInfoCall(mode: bv16, buf: bv32): (r: Registers)
    ensures r.intno == VBE_INTERRUPT && r.ax == VBE_MODE_INFO && r.cx == mode
    ensures buf < RealMode.ONE_MIB ==> RealMode.Linear(Buffer(r)) == buf
  {
    var p := RealMode.Split(buf);
    Registers(VBE_INTERRUPT, Selector(0x01), 0, mode, p.segment, p.offset)
  }

  /** Function 02h for mode `mode` with the linear frame buffer: BX is the mode
      number with bit D14 set. */
  function SetModeCall(mode: bv16): (r: Registers)
    ensures r.intno == VBE_INTERRUPT && r.ax == SET_VBE_MODE
    ensures r.bx & LINEAR_FLAG != 0
    ensures mode < LINEAR_FLAG ==> WithoutLinear(r.bx) == mode
  {
    LinearRoundTrip(mode);
    Registers(VBE_INTERRUPT, Selector(0x02), WithLinear(mode), 0, 0, 0)
  }

  /** The BIOS call back to 80x25 text mode: AH = 00h, AL = 03h. */
  function TextModeCall(): (r: Registers)
    ensures r.intno == VBE_INTERRUPT
    ensures Ah(r.ax) == VBE_VIDEO_MODE && Al(r.ax) == TEXT_MODE_80x25
  {
    Registers(VBE_INTERRUPT, Ax(VBE_VIDEO_MODE, SET_TEXT_MODE), 0, 0, 0, 0)
  }

  // ---------------------------------------------------------------------
  // The information queries

  /** What a query gives back: the decoded block, or the status the firmware
      reported. */
  datatype Result<T> = Ok(value: T) | Err(status: Status)

  /** The outcome of `vbe_get_mode_info` given the AX the firmware returned and
      the 256 bytes it wrote: success (the C function's 0) exactly when AH is
      00h, and then the block holds those bytes field for field; otherwise the
      status AH reported. */
  function GetModeInfo(ax: bv16, reply: seq<bv8>): (r: Result<ModeInfo.ModeInfoBlock>)
    requires |reply| == ModeInfo.SIZE
    ensures r.Ok? <==> Ah(ax) == FUNCTION_CALL_SUCCESSFUL
    ensures r.Ok? ==> r.value.Valid() && ModeInfo.Encode(r.value) == reply
    ensures r.Err? ==> !r.status.Successful? && StatusCode(r.status) == Ah(ax)
  {
    var st := StatusOf(Ah(ax));
    if st.Successful? then Ok(ModeInfo.Decode(reply)) else Err(st)
  }

  /** The outcome of `vbe_get_info_block` given the AX the firmware returned and
      the 512 bytes it wrote, with the same success rule. */
  function GetInfoBlock(ax: bv16, reply: seq<bv8>): (r: Result<ControllerInfo.VbeInfoBlock>)
    requires |reply| == ControllerInfo.SIZE
    ensures r.Ok? <==> Ah(ax) == FUNCTION_CALL_SUCCESSFUL
    ensures r.Ok? ==> r.value.Valid() && ControllerInfo.Encode(r.value) == reply
    ensures r.Err? ==> !r.status.Successful? && StatusCode(r.status) == Ah(ax)
  {
    var st := StatusOf(Ah(ax));
    if st.Successful? then Ok(ControllerInfo.Decode(reply)) else Err(st)
  }

  /** The physical address of the mode-number list, from the far pointer the
      firmware stored in VideoModePtr: the segment word PB2OFFBLOCK keeps,
      moved down to segment times 16, plus the offset word PB2OFF keeps. */
  function ModeListAddress(b: ControllerInfo.VbeInfoBlock): (addr: bv32)
    ensures var w := b.VideoModePtr; addr == (RealMode.Pb2OffBlock(w) >> 12) + RealMode.Pb2Off(w)
  {
    RealMode.FarWordLinear(b.VideoModePtr);
    RealMode.Linear(RealMode.FromFarWord(b.VideoModePtr))
  }

  /** Whatever far pointer the firmware stored in VideoModePtr, the list
      address is the physical address that pointer designates. */
  lemma ModeListAddressResolves(b: ControllerInfo.VbeInfoBlock, p: RealMode.FarPtr)
    requires b.VideoModePtr == RealMode.FarWord(p)
    ensures ModeListAddress(b) == RealMode.Linear(p)
  {
    RealMode.FarWordRoundTrip(p);
  }

  /** The mode numbers of the list, read from the words at its address: all
      words before the first VIDEOPTR_FINAL (or all of them if none is there). */
  function ModeList(words: seq<bv16>): (modes: seq<bv16>)
    ensures VIDEOPTR_FINAL !in modes
    ensures modes <= words
    ensures |modes| < |words| ==> words[|modes|] == VIDEOPTR_FINAL
  {
    if |words| == 0 || words[0] == VIDEOPTR_FINAL then []
    else [words[0]] + ModeList(words[1..])
  }

  /** A list written as its mode numbers followed by the terminator reads back
      as those mode numbers, whatever follows the terminator. */
  lemma {:induction false} ModeListTerminated(modes: seq<bv16>, rest: seq<bv16>)
    requires VIDEOPTR_FINAL !in modes
    ensures ModeList(modes + [VIDEOPTR_FINAL] + rest) == modes
  {
    if |modes| > 0 {
      assert (modes + [VIDEOPTR_FINAL] + rest)[1..] == modes[1..] + [VIDEOPTR_FINAL] + rest;
      ModeListTerminated(modes[1..], rest);
    } else {
      assert (modes + [VIDEOPTR_FINAL] + rest)[0] == VIDEOPTR_FINAL;
    }
  }
}
