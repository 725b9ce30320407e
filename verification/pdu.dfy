/** isotp/pdu.go: the ISO-TP frame parser. */
module Pdu {
  import opened Basics
  import opened Framing

  datatype PDU =
    | SingleFrame(data: Bytes)
    | FirstFrame(totalSize: nat, data: Bytes)
    | ConsecutiveFrame(sequenceNumber: nat, data: Bytes)
    | FlowControlFrame(flowStatus: byte, blockSize: byte, stMinUS: nat)

  datatype ParseError =
    | Empty | ShortEscapedSF | IncompleteSF | ShortFF | ShortLongFF
    | NonCanonicalLength | FFCoversMessage | ShortFC | BadStatus | UnknownPCI

  /** STmin in microseconds; reserved encodings mean the maximum, 127 ms. */
  function DecodeSTmin(b: byte): nat {
    if b <= 0x7F then b * 1000
    else if 0xF1 <= b <= 0xF9 then (b - 0xF0) * 100
    else 127 * 1000
  }

  function ParseFrame(p: Bytes): Result<PDU, ParseError> {
    if |p| == 0 then Err(Empty) else
    match p[0] / 16
    case 0 =>
      var length := p[0] % 16;
      if length == 0 then
        if |p| == 1 then Ok(SingleFrame([]))
        else if |p| - 2 < p[1] then Err(IncompleteSF)
        else Ok(SingleFrame(p[2..2 + p[1]]))
      else
        if |p| - 1 < length then Err(IncompleteSF)
        else Ok(SingleFrame(p[1..1 + length]))
    case 1 =>
      if |p| < 2 then Err(ShortFF) else
      var short := ShortLength(p);
      if short != 0 then
        if short <= |p| - 2 then Err(FFCoversMessage) else Ok(FirstFrame(short, p[2..]))
      else if |p| < 6 then Err(ShortLongFF)
      else
        var total := ReadBigEndian32(p[2..6]);
        if total <= 4095 then Err(NonCanonicalLength)
        else if total <= |p| - 6 then Err(FFCoversMessage)
        else Ok(FirstFrame(total, p[6..]))
    case 2 => Ok(ConsecutiveFrame(p[0] % 16, p[1..]))
    case 3 =>
      if |p| < 3 then Err(ShortFC)
      else if p[0] % 16 > OVERFLOW then Err(BadStatus)
      else Ok(FlowControlFrame(p[0] % 16, p[1], DecodeSTmin(p[2])))
    case _ => Err(UnknownPCI)
  }

  /** The 12-bit total length in the first two bytes of a First Frame. */
  function ShortLength(p: Bytes): nat
    requires |p| >= 2
  {
    p[0] as int % 16 * 256 + p[1]
  }

  function ReadBigEndian32(b: Bytes): nat
    requires |b| == 4
  {
    b[0] as int * 0x100_0000 + b[1] as int * 0x1_0000 + b[2] as int * 0x100 + b[3]
  }

  lemma BigEndianRoundTrip(n: nat)
    ensures ReadBigEndian32(BigEndian32(n)) == n % TWO32
  {
    var q1, q2, q3, q4 := n / 256, n / 0x1_0000, n / 0x100_0000, n / TWO32;
    assert q2 == q1 / 256 && q3 == q2 / 256 && q4 == q3 / 256;
    assert n == 256 * q1 + n % 256;
    assert q1 == 256 * q2 + q1 % 256;
    assert q2 == 256 * q3 + q2 % 256;
    assert q3 == 256 * q4 + q3 % 256;
    assert n == TWO32 * q4 + n % TWO32;
  }

  lemma ReadThenWrite32(b: Bytes)
    requires |b| == 4
    ensures BigEndian32(ReadBigEndian32(b)) == b
  {
    var n := ReadBigEndian32(b);
    assert n / 256 == b[0] as int * 0x1_0000 + b[1] as int * 0x100 + b[2];
    assert n / 0x1_0000 == b[0] as int * 0x100 + b[1];
    assert n / 0x100_0000 == b[0];
  }

  // ---------- encode, append fill, parse ----------

  /** When an encoded Single Frame survives a link that appends `fill`:
      the one-byte form of the empty payload is the only victim, and only when
      the first fill byte is not zero. */
  predicate SingleFrameSurvives(data: Bytes, maxDataLength: nat, fill: Bytes) {
    data == [] && maxDataLength <= 8 && fill != [] ==> fill[0] == 0
  }

  lemma SingleFrameRoundTrip(data: Bytes, maxDataLength: nat, fill: Bytes)
    requires CreateSingleFrame(data, maxDataLength).Ok?
    requires maxDataLength <= 64
    ensures ParseFrame(CreateSingleFrame(data, maxDataLength).value + fill) == Ok(SingleFrame(data))
            <==> SingleFrameSurvives(data, maxDataLength, fill)
  {
    var enc := CreateSingleFrame(data, maxDataLength).value;
    var p := enc + fill;
    var n := |data|;
    if n == 0 && maxDataLength > 8 {
      assert p[2..2] == data;
    } else if n == 0 {
      if fill != [] {
        assert p[0] == 0 && p[1] == fill[0];
        if |p| - 2 >= p[1] {
          assert |p[2..2 + p[1]]| == p[1];
        }
      }
    } else if n <= 7 {
      assert p[1..1 + n] == data;
    } else {
      assert p[0] == 0 && p[1] == n;
      assert p[2..2 + n] == data;
    }
  }

  lemma ShortFirstFrame(chunk: Bytes, total: nat)
    requires |chunk| < total <= 4095
    ensures ParseFrame([PCI_FIRST + total / 256, total % 256] + chunk) == Ok(FirstFrame(total, chunk))
  {
  }

  lemma LongFirstFrame(chunk: Bytes, total: nat)
    requires |chunk| < total && total > 4095
    ensures var n := total % TWO32;
            ParseFrame([PCI_FIRST, 0] + BigEndian32(total) + chunk)
            == if n <= 4095 then Err(NonCanonicalLength)
               else if n <= |chunk| then Err(FFCoversMessage)
               else Ok(FirstFrame(n, chunk))
  {
    var p: Bytes := [PCI_FIRST, 0] + BigEndian32(total) + chunk;
    assert p[0] == 16 && p[1] == 0;
    assert p[2..6] == BigEndian32(total);
    BigEndianRoundTrip(total);
    assert p[6..] == chunk;
  }

  /** A First Frame sent without fill parses back exactly when its total fits 32 bits. */
  lemma FirstFrameRoundTrip(chunk: Bytes, total: nat, maxDataLength: nat)
    requires CreateFirstFrame(chunk, total, maxDataLength).Ok?
    requires |chunk| < total
    ensures ParseFrame(CreateFirstFrame(chunk, total, maxDataLength).value) == Ok(FirstFrame(total, chunk))
            <==> total < TWO32
    ensures total >= TWO32 ==>
              var r := ParseFrame(CreateFirstFrame(chunk, total, maxDataLength).value);
              r.Err? || r == Ok(FirstFrame(total % TWO32, chunk))
  {
    if total <= 4095 {
      ShortFirstFrame(chunk, total);
    } else {
      LongFirstFrame(chunk, total);
    }
  }

  /** A Consecutive Frame parses back with its own data and whatever fill the link appended. */
  lemma ConsecutiveFrameRoundTrip(chunk: Bytes, sequenceNumber: nat, fill: Bytes)
    requires sequenceNumber <= 15
    ensures CreateConsecutiveFrame(chunk, sequenceNumber).Ok?
    ensures ParseFrame(CreateConsecutiveFrame(chunk, sequenceNumber).value + fill)
            == Ok(ConsecutiveFrame(sequenceNumber, chunk + fill))
  {
    var p := CreateConsecutiveFrame(chunk, sequenceNumber).value + fill;
    assert p[0] == 0x20 + sequenceNumber;
    assert p[1..] == chunk + fill;
  }

  lemma FlowControlRoundTrip(status: byte, blockSize: int, stMinMs: int, fill: Bytes)
    requires status <= OVERFLOW
    requires 0 <= blockSize <= 255 && 0 <= stMinMs <= 127
    ensures ParseFrame(CreateFlowControl(status, blockSize, stMinMs) + fill)
            == Ok(FlowControlFrame(status, blockSize, stMinMs * 1000))
  {
  }

  /** A configured STmin outside the range of a byte of milliseconds asks for the longest time. */
  lemma FlowControlClamps(status: byte, blockSize: int, stMinMs: int)
    requires status <= OVERFLOW && !(0 <= stMinMs <= 127)
    ensures ParseFrame(CreateFlowControl(status, blockSize, stMinMs))
            == Ok(FlowControlFrame(status, blockSize % 256, 127_000))
  {
  }

  /** The public First Frame encoder refuses exactly a length that is not positive, does not fit
      32 bits, is covered by the chunk or needs too long a frame; the rest parses back exactly. */
  lemma PublicFirstFrame(chunk: Bytes, total: int, isFD: bool)
    ensures EncodeFirstFrame(chunk, total, isFD).Ok? <==>
            && |chunk| < total && 0 < total < TWO32
            && |chunk| + (if total <= 4095 then 2 else 6) <= FrameDataLength(isFD)
    ensures EncodeFirstFrame(chunk, total, isFD).Ok? ==>
              ParseFrame(EncodeFirstFrame(chunk, total, isFD).value) == Ok(FirstFrame(total, chunk))
  {
    if EncodeFirstFrame(chunk, total, isFD).Ok? { FirstFrameRoundTrip(chunk, total, FrameDataLength(isFD)); }
  }

  /** Whatever the other public encoders accept parses back as what was asked for. */
  lemma PublicEncoders(data: Bytes, sequenceNumber: int, status: byte, blockSize: int, stMin: byte, isFD: bool)
    ensures var e := EncodeConsecutiveFrame(data, sequenceNumber, isFD);
            e.Ok? ==> ParseFrame(e.value) == Ok(ConsecutiveFrame(sequenceNumber, data))
    ensures var e := EncodeSingleFrame(data, isFD);
            e.Ok? ==> ParseFrame(e.value) == Ok(SingleFrame(data))
    ensures var e := EncodeFlowControlFrame(status, blockSize, stMin);
            e.Ok? ==> ParseFrame(e.value) == Ok(FlowControlFrame(status, blockSize, DecodeSTmin(stMin)))
  {
    var cf, sf := EncodeConsecutiveFrame(data, sequenceNumber, isFD), EncodeSingleFrame(data, isFD);
    if cf.Ok? {
      ConsecutiveFrameRoundTrip(data, sequenceNumber, []);
      assert cf.value + [] == cf.value && data + [] == data;
    }
    if sf.Ok? {
      SingleFrameRoundTrip(data, FrameDataLength(isFD), []);
      assert sf.value + [] == sf.value;
    }
  }

  // ---------- which byte strings parse as what ----------

  /** A Single Frame is its length and its data, in one byte or behind an escape byte, with anything after;
      only the empty payload may stand alone. */
  lemma SingleFrameGrammar(p: Bytes, data: Bytes)
    ensures ParseFrame(p) == Ok(SingleFrame(data)) <==>
            || (p != [] && 1 <= |data| <= 15 && p[0] == |data| && data <= p[1..])
            || (p == [0] && data == [])
            || (|p| >= 2 && p[0] == 0 && p[1] == |data| && data <= p[2..])
  {
    var n := |data|;
    if |p| >= 1 + n { assert data <= p[1..] <==> p[1..1 + n] == data by { PrefixIsSlice(p, 1, data); } }
    if |p| >= 2 + n { assert data <= p[2..] <==> p[2..2 + n] == data by { PrefixIsSlice(p, 2, data); } }
  }

  lemma PrefixIsSlice(p: Bytes, from: nat, data: Bytes)
    requires from + |data| <= |p|
    ensures data <= p[from..] <==> p[from..from + |data|] == data
  {
    assert p[from..][..|data|] == p[from..from + |data|];
  }

  /** A First Frame is the total length in 12 bits, or zero and the total in 32 bits, most significant byte
      first, when 12 are not enough; then data that is not the whole payload yet. */
  lemma FirstFrameGrammar(p: Bytes, total: nat, data: Bytes)
    ensures ParseFrame(p) == Ok(FirstFrame(total, data)) <==>
            && |data| < total
            && if total <= 0xFFF
               then |p| >= 2 && p[0] == 0x10 + total / 256 && p[1] == total % 256 && data == p[2..]
               else |p| >= 6 && p[0] == 0x10 && p[1] == 0 && data == p[6..]
                    && total == p[2] as int * 16_777_216 + p[3] as int * 65_536 + p[4] as int * 256 + p[5]
  {
  }

  /** A Consecutive Frame is its number and its data. */
  lemma ConsecutiveFrameGrammar(p: Bytes, sequenceNumber: nat, data: Bytes)
    ensures ParseFrame(p) == Ok(ConsecutiveFrame(sequenceNumber, data)) <==>
            p != [] && sequenceNumber < 16 && p[0] == 0x20 + sequenceNumber && data == p[1..]
  {
  }

  /** A flow control is one of three status values, a block size and an STmin, with anything after. */
  lemma FlowControlGrammar(p: Bytes, status: byte, blockSize: byte, stMinUS: nat)
    ensures ParseFrame(p) == Ok(FlowControlFrame(status, blockSize, stMinUS)) <==>
            && |p| >= 3 && status <= 2 && p[0] == 0x30 + status as int
            && p[1] == blockSize && stMinUS == DecodeSTmin(p[2])
  {
  }

  // ---------- parse, then encode again ----------

  /** The FF length format is canonical: every byte string that parses as a First Frame
      is what the encoder writes for the parsed value, so no two inputs parse alike. */
  lemma FirstFrameCanonical(p: Bytes, maxDataLength: nat)
    requires |p| <= maxDataLength
    requires ParseFrame(p).Ok? && ParseFrame(p).value.FirstFrame?
    ensures var f := ParseFrame(p).value;
            && |f.data| < f.totalSize < TWO32
            && CreateFirstFrame(f.data, f.totalSize, maxDataLength) == Ok(p)
  {
    var f := ParseFrame(p).value;
    var short := ShortLength(p);
    if short != 0 {
      assert short / 256 == p[0] % 16 && short % 256 == p[1];
      assert p == [PCI_FIRST + short / 256, short % 256] + p[2..];
    } else {
      ReadThenWrite32(p[2..6]);
      assert p == [PCI_FIRST, 0] + p[2..6] + p[6..];
    }
  }

  /** Every parsed Consecutive Frame re-encodes to the bytes it came from. */
  lemma ConsecutiveFrameCanonical(p: Bytes)
    requires ParseFrame(p).Ok? && ParseFrame(p).value.ConsecutiveFrame?
    ensures var f := ParseFrame(p).value;
            f.sequenceNumber <= 15 && CreateConsecutiveFrame(f.data, f.sequenceNumber) == Ok(p)
  {
    assert p == [p[0]] + p[1..];
  }

  /** STmin counts milliseconds up to 127 and, from 0xF1 to 0xF9, steps of 100 microseconds up to 900; every
      other byte means the longest time there is. */
  lemma STminSteps(b: byte)
    ensures DecodeSTmin(0) == 0 && DecodeSTmin(0xF1) == 100 && DecodeSTmin(0xF9) == 900
    ensures b < 0x7F ==> DecodeSTmin(b + 1) == DecodeSTmin(b) + 1000
    ensures 0xF1 <= b < 0xF9 ==> DecodeSTmin(b + 1) == DecodeSTmin(b) + 100
    ensures 0x7F <= b < 0xF1 || b > 0xF9 ==> forall other: byte :: DecodeSTmin(other) <= DecodeSTmin(b)
  {
  }

  /** A parsed flow status is one of the three legal ones, and the STmin bytes that
      `EncodeFlowControlFrame` accepts are decoded injectively. */
  lemma FlowControlDecoding(p: Bytes, b1: byte, b2: byte)
    ensures ParseFrame(p).Ok? && ParseFrame(p).value.FlowControlFrame? ==>
              ParseFrame(p).value.flowStatus <= OVERFLOW
    ensures EncodeFlowControlFrame(0, 0, b1).Ok? && EncodeFlowControlFrame(0, 0, b2).Ok? && b1 != b2 ==>
              DecodeSTmin(b1) != DecodeSTmin(b2)
    ensures DecodeSTmin(b1) <= 127_000
  {
  }
}
