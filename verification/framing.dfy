/** isotp/framing.go: the ISO-TP frame encoders. */
module Framing {
  import opened Basics

  const PCI_SINGLE := 0x00
  const PCI_FIRST := 0x10
  const PCI_CONSECUTIVE := 0x20
  const PCI_FLOW_CONTROL := 0x30

  /** Flow status values; any other byte value is invalid. */
  const CONTINUE_TO_SEND: byte := 0
  const WAIT: byte := 1
  const OVERFLOW: byte := 2

  const TWO32: nat := 0x1_0000_0000

  datatype FramingError =
    | FrameTooLong | BadSequenceNumber | NonPositiveLength | LengthOver32Bits
    | ChunkCoversMessage | BadFlowStatus | BadBlockSize | BadSTmin

  function FrameDataLength(isFD: bool): nat {
    if isFD then 64 else 8
  }

  /** The low 32 bits of `n`, most significant byte first. */
  function BigEndian32(n: nat): Bytes {
    [n / 0x100_0000 % 256, n / 0x1_0000 % 256, n / 0x100 % 256, n % 256]
  }

  function CreateSingleFrame(data: Bytes, maxDataLength: nat): Result<Bytes, FramingError> {
    var n := |data|;
    var pci: Bytes :=
      if n == 0 && maxDataLength > 8 then [PCI_SINGLE, 0]
      else if n <= 7 then [PCI_SINGLE + n]
      else [PCI_SINGLE, n % 256];
    if |pci| + n > maxDataLength then Err(FrameTooLong) else Ok(pci + data)
  }

  function CreateFirstFrame(firstChunk: Bytes, total: nat, maxDataLength: nat): Result<Bytes, FramingError> {
    var pci: Bytes :=
      if total <= 4095 then [PCI_FIRST + total / 256, total % 256]
      else [PCI_FIRST, 0] + BigEndian32(total);
    if |pci| + |firstChunk| > maxDataLength then Err(FrameTooLong) else Ok(pci + firstChunk)
  }

  function CreateConsecutiveFrame(chunk: Bytes, sequenceNumber: int): Result<Bytes, FramingError> {
    if sequenceNumber < 0 || sequenceNumber > 15 then Err(BadSequenceNumber)
    else Ok([PCI_CONSECUTIVE + sequenceNumber] + chunk)
  }

  /** `status` is or-ed into the low bits of the PCI byte; the constructors are only called with 0, 1 and 2. */
  function CreateFlowControlRaw(status: byte, blockSize: byte, stMin: byte): Bytes
    requires status < 16
  {
    [PCI_FLOW_CONTROL + status, blockSize, stMin]
  }

  function CreateFlowControl(status: byte, blockSize: int, stMinMs: int): Bytes
    requires status < 16
  {
    CreateFlowControlRaw(status, blockSize % 256, if 0 <= stMinMs <= 127 then stMinMs else 0x7F)
  }

  function EncodeSingleFrame(data: Bytes, isFD: bool): Result<Bytes, FramingError> {
    CreateSingleFrame(data, FrameDataLength(isFD))
  }

  function EncodeFirstFrame(firstChunk: Bytes, total: int, isFD: bool): Result<Bytes, FramingError> {
    if total <= 0 then Err(NonPositiveLength)
    else if total >= TWO32 then Err(LengthOver32Bits)
    else if total <= |firstChunk| then Err(ChunkCoversMessage)
    else CreateFirstFrame(firstChunk, total, FrameDataLength(isFD))
  }

  function EncodeConsecutiveFrame(chunk: Bytes, sequenceNumber: int, isFD: bool): Result<Bytes, FramingError> {
    if |chunk| > FrameDataLength(isFD) - 1 then Err(FrameTooLong)
    else CreateConsecutiveFrame(chunk, sequenceNumber)
  }

  function EncodeFlowControlFrame(status: byte, blockSize: int, stMin: byte): Result<Bytes, FramingError> {
    if status > OVERFLOW then Err(BadFlowStatus)
    else if blockSize < 0 || blockSize > 255 then Err(BadBlockSize)
    else if stMin > 0x7F && (stMin < 0xF1 || stMin > 0xF9) then Err(BadSTmin)
    else Ok(CreateFlowControlRaw(status, blockSize, stMin))
  }
}
