/** The path of one ISO-TP frame between two sessions: padding (isotp/stack.go),
    DLC rounding (can/can.go) and the receive filter `fromCANFrame`. */
module Link {
  import opened Basics
  import Can
  import Framing

  datatype LinkFrame = LinkFrame(arbitrationID: nat, data: Bytes, fd: bool)

  function NextFDTargetLength(length: nat): nat {
    if length <= 8 then 8
    else if length <= 12 then 12
    else if length <= 16 then 16
    else if length <= 20 then 20
    else if length <= 24 then 24
    else if length <= 32 then 32
    else if length <= 48 then 48
    else 64
  }

  function PaddingTarget(fd: bool, length: nat): nat {
    if fd then NextFDTargetLength(length) else 8
  }

  /** What the padding loop leaves in the frame. */
  function Padded(padding: Option<byte>, fd: bool, data: Bytes): Bytes {
    if padding.None? then data
    else data + Fill(Max(PaddingTarget(fd, |data|) - |data|, 0), padding.value)
  }

  /** makeTxMsgWithAddr: pads in a buffer, byte by byte. */
  method MakeTxMsg(padding: Option<byte>, fd: bool, txID: nat, data: Bytes) returns (msg: LinkFrame)
    ensures msg == LinkFrame(txID, Padded(padding, fd, data), fd)
  {
    var fullPayload := data;
    if padding.Some? {
      var targetLen := PaddingTarget(fd, |fullPayload|);
      if |fullPayload| < targetLen {
        var padded := new byte[targetLen](i requires 0 <= i < targetLen => if i < |data| then data[i] else 0);
        for i := |data| to targetLen
          invariant padded[..i] == data + Fill(i - |data|, padding.value)
        {
          padded[i] := padding.value;
        }
        fullPayload := padded[..];
        assert fullPayload == padded[..targetLen];
      }
    }
    msg := LinkFrame(txID, fullPayload, fd);
    assert fullPayload == Padded(padding, fd, data);
  }

  /** The sending goroutine: a link frame becomes a CAN frame or an error. */
  function ToCANFrame(msg: LinkFrame, brs: bool): Result<Can.Frame, Can.FrameError> {
    Can.NewFrame(msg.arbitrationID, msg.data, Can.FrameFlags(msg.fd, msg.fd && brs, false))
  }

  function FromCANFrame(f: Can.Frame): Option<LinkFrame> {
    if f.direction == Can.Transmit || f.id > 0x7FF then None
    else match Can.ValidDataLength(f)
         case None => None
         case Some(length) => if length <= 64 then Some(LinkFrame(f.id, f.data[..length], f.fd)) else None
  }

  /** The bus hands the peer the same frame, marked as received. */
  function Carry(f: Can.Frame): Can.Frame {
    f.(direction := Can.Receive)
  }

  /** How many bytes of a frame of `n` encoded bytes reach the peer. */
  function WireLength(padding: Option<byte>, fd: bool, n: nat): nat
    requires n <= Framing.FrameDataLength(fd)
  {
    if padding.Some? then PaddingTarget(fd, n)
    else var len := Can.DLCToLength(Can.LengthToDLC(n)); if len.Some? then len.value else 0
  }

  /** The bytes the link appends to a frame of `n` encoded bytes. */
  function WireFill(padding: Option<byte>, fd: bool, n: nat): Bytes
    requires n <= Framing.FrameDataLength(fd)
  {
    Fill(Max(WireLength(padding, fd, n) - n, 0), if padding.Some? then padding.value else 0)
  }

  /** Padding to the next CAN FD length never needs DLC rounding afterwards, and the two
      length tables agree. */
  lemma PaddingMeetsDLC(n: nat)
    requires n <= 64
    ensures Can.CanLength(NextFDTargetLength(n))
    ensures Can.DLCToLength(Can.LengthToDLC(Max(n, 8))) == Some(NextFDTargetLength(n))
  {
  }

  /** With a padding byte configured a classic frame is padded to 8 bytes, and an FD frame to the least of the
      CAN FD lengths from 8 on that holds its data, which it starts with; without one nothing is appended. */
  lemma PaddedLength(padding: Option<byte>, fd: bool, data: Bytes)
    ensures data <= Padded(padding, fd, data) && (padding.None? ==> Padded(padding, fd, data) == data)
    ensures padding.Some? ==>
              var n := |Padded(padding, fd, data)|;
              && (!fd ==> n == Max(8, |data|))
              && (fd && |data| <= 64 ==>
                    n >= 8 && Can.CanLength(n) && forall m :: m >= 8 && m >= |data| && Can.CanLength(m) ==> n <= m)
              && forall i :: |data| <= i < n ==> Padded(padding, fd, data)[i] == padding.value
  {
  }

  /** Encoded bytes of any length the mode allows cross the link and arrive as themselves
      followed by the link's fill; a frame that is already full arrives unchanged. */
  lemma CrossesLink(padding: Option<byte>, fd: bool, brs: bool, id: nat, data: Bytes)
    requires id <= 0x7FF && |data| <= Framing.FrameDataLength(fd)
    ensures var sent := ToCANFrame(LinkFrame(id, Padded(padding, fd, data), fd), brs);
            && sent.Ok?
            && FromCANFrame(Carry(sent.value))
               == Some(LinkFrame(id, data + WireFill(padding, fd, |data|), fd))
            && sent.value.direction == Can.Transmit && !sent.value.extended
            && (sent.value.brs <==> fd && brs)
    ensures |data| == Framing.FrameDataLength(fd) ==> WireFill(padding, fd, |data|) == []
  {
    var padded := Padded(padding, fd, data);
    PaddedCrosses(padding, fd, brs, id, data);
    PaddingMeetsDLC(|data|);
    Can.DLCRoundsUpTight(|data|);
    var len := Can.DLCToLength(Can.LengthToDLC(|padded|)).value;
    if padding.Some? {
      Can.DLCRoundsUpTight(|padded|);
      assert len == |padded|;
      assert padded + Fill(0, 0) == padded;
    }
    assert padded + Fill(len - |padded|, 0) == data + WireFill(padding, fd, |data|);
  }

  /** What DLC rounding appends to the padded bytes. */
  lemma PaddedCrosses(padding: Option<byte>, fd: bool, brs: bool, id: nat, data: Bytes)
    requires id <= 0x7FF && |data| <= Framing.FrameDataLength(fd)
    ensures var padded := Padded(padding, fd, data);
            var sent, len := ToCANFrame(LinkFrame(id, padded, fd), brs), Can.DLCToLength(Can.LengthToDLC(|padded|));
            && len.Some? && |padded| <= len.value && sent.Ok?
            && FromCANFrame(Carry(sent.value)) == Some(LinkFrame(id, padded + Fill(len.value - |padded|, 0), fd))
  {
    var padded := Padded(padding, fd, data);
    Can.DLCRoundsUpTight(|padded|);
    Can.NewFrameContract(id, padded, Can.FrameFlags(fd, fd && brs, false));
  }

  /** A session never hears its own transmissions, nor frames with an identifier beyond 11 bits. */
  lemma FilterRejects(f: Can.Frame)
    ensures FromCANFrame(f).Some? <==>
              f.direction == Can.Receive && f.id <= 0x7FF && f.dlc <= (if f.fd then 15 else 8)
  {
  }
}
