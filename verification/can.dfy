/** can/can.go: CAN frames, DLC rounding and frame validation. */
module Can {
  import opened Basics

  datatype Direction = Transmit | Receive

  /** The fixed 64-byte data array of a frame. */
  type Data64 = s: Bytes | |s| == 64 witness Fill(64, 0)

  datatype Frame = Frame(direction: Direction, id: nat, dlc: byte, data: Data64,
                         fd: bool, brs: bool, extended: bool, timestampUS: nat)

  datatype FrameFlags = FrameFlags(fd: bool, brs: bool, extended: bool)

  datatype FrameError = IDTooLarge | BRSWithoutFD | PayloadTooLong

  const MAX_STANDARD_ID: nat := 0x7FF
  const MAX_EXTENDED_ID: nat := 0x1FFFFFFF

  function ValidateFrame(f: Frame, payloadLength: nat): Option<FrameError> {
    if f.id > (if f.extended then MAX_EXTENDED_ID else MAX_STANDARD_ID) then Some(IDTooLarge)
    else if !f.fd && f.brs then Some(BRSWithoutFD)
    else if payloadLength > (if f.fd then 64 else 8) then Some(PayloadTooLong)
    else None
  }

  function LengthToDLC(length: int): byte {
    if length < 0 then 0
    else if length <= 8 then length
    else if length <= 12 then 9
    else if length <= 16 then 10
    else if length <= 20 then 11
    else if length <= 24 then 12
    else if length <= 32 then 13
    else if length <= 48 then 14
    else 15
  }

  function DLCToLength(dlc: byte): Option<nat> {
    if dlc <= 8 then Some(dlc)
    else if dlc > 15 then None
    else Some([12, 16, 20, 24, 32, 48, 64][dlc - 9])
  }

  function ValidDataLength(f: Frame): Option<nat> {
    if (!f.fd && f.dlc > 8) || (f.fd && f.dlc > 15) then None else DLCToLength(f.dlc)
  }

  /** Frame.DataLength: an impossible DLC counts as no data. */
  function DataLength(f: Frame): nat {
    var len := DLCToLength(f.dlc);
    if len.Some? then len.value else 0
  }

  function NewFrame(id: nat, payload: Bytes, flags: FrameFlags): Result<Frame, FrameError> {
    var f := Frame(Transmit, id, 0, Fill(64, 0), flags.fd, flags.brs, flags.extended, 0);
    match ValidateFrame(f, |payload|)
    case Some(e) => Err(e)
    case None => Ok(f.(dlc := LengthToDLC(|payload|), data := payload + Fill(64 - |payload|, 0)))
  }

  /** The lengths a DLC can express. */
  predicate CanLength(n: int) {
    0 <= n <= 8 || n in {12, 16, 20, 24, 32, 48, 64}
  }

  /** DLC rounding picks the smallest expressible length that holds the payload,
      and a payload of expressible length keeps exactly its own length. */
  lemma DLCRoundsUpTight(n: nat)
    requires n <= 64
    ensures var r := DLCToLength(LengthToDLC(n));
            r.Some? && CanLength(r.value) && n <= r.value
            && (forall m :: CanLength(m) && n <= m ==> r.value <= m)
            && (CanLength(n) <==> r.value == n)
  {
  }

  /** What a DLC stands for: up to eight itself, then the seven CAN FD lengths in order, and beyond 15 no data. */
  lemma DLCTable(f: Frame)
    ensures f.dlc <= 8 ==> DataLength(f) == f.dlc
    ensures f.dlc > 15 ==> DataLength(f) == 0
    ensures forall g: Frame :: 8 <= f.dlc < g.dlc <= 15 ==> DataLength(f) < DataLength(g)
    ensures CanLength(DataLength(f))
  {
  }

  /** `NewFrame` refuses exactly the ID, flag and length combinations the format cannot carry;
      an accepted frame holds the payload followed by zeros up to the DLC length. */
  lemma NewFrameContract(id: nat, payload: Bytes, flags: FrameFlags)
    ensures NewFrame(id, payload, flags) == Err(IDTooLarge) <==> id > (if flags.extended then 0x1FFF_FFFF else 0x7FF)
    ensures NewFrame(id, payload, flags) == Err(BRSWithoutFD) ==> flags.brs && !flags.fd
    ensures NewFrame(id, payload, flags) == Err(PayloadTooLong) ==> |payload| > (if flags.fd then 64 else 8)
    ensures NewFrame(id, payload, flags).Ok? <==>
            && id <= (if flags.extended then MAX_EXTENDED_ID else MAX_STANDARD_ID)
            && (flags.brs ==> flags.fd)
            && |payload| <= (if flags.fd then 64 else 8)
    ensures NewFrame(id, payload, flags).Ok? ==>
              var f := NewFrame(id, payload, flags).value;
              var len := ValidDataLength(f);
              && len.Some? && |payload| <= len.value <= 64
              && f.data[..len.value] == payload + Fill(len.value - |payload|, 0)
              && ValidateFrame(f, len.value).None?
              && f.direction == Transmit && f.id == id && f.timestampUS == 0
              && FrameFlags(f.fd, f.brs, f.extended) == flags
  {
  }
}
