/** The streaming bit counters of driver/internal/backend/busload.go, proved to count the
    explicitly stuffed bit list, and the frame lengths computed with them. */
module BitCounter {
  import opened Basics
  import opened BitStuffing
  import opened Crc15
  import Can

  /** What a counter remembers of the stream: its length so far and its last run. */
  datatype Run = Run(total: nat, run: nat, prev: bool, isSet: bool)

  const NoBits := Run(0, 0, false, false)

  function CountBit(c: Run, bit: bool): Run {
    var run := if c.isSet && bit == c.prev then c.run + 1 else 1;
    if run == 5 then Run(c.total + 2, 1, !bit, true) else Run(c.total + 1, run, bit, true)
  }

  /** The counter after a whole list of bits. */
  function Counted(bits: Bits): Run {
    if bits == [] then NoBits else CountBit(Counted(bits[..|bits| - 1]), bits[|bits| - 1])
  }

  lemma CountedStep(bits: Bits, bit: bool)
    ensures Counted(bits + [bit]) == CountBit(Counted(bits), bit)
  {
  }

  predicate Tracks(c: Run, out: Bits) {
    && c.total == |out|
    && (c.isSet <==> out != [])
    && (c.isSet ==> c.prev == out[|out| - 1] && c.run == TrailingRun(out))
  }

  lemma CountBitTracks(c: Run, before: Bits, bit: bool)
    requires Tracks(c, before) && TrailingRun(before) <= 4
    ensures var out := before + [bit]; Tracks(CountBit(c, bit), if EndsEqual(out, 5) then out + [!bit] else out)
  {
    RunAfter(before, bit);
    RunMeansEqual(before + [bit], 5);
    RunAfter(before + [bit], !bit);
  }

  /** Without ever building it, a counter knows the stuffed list's length, last bit and last run. */
  lemma {:induction false} CounterTracksStuffing(bits: Bits)
    ensures Tracks(Counted(bits), Stuffed(bits))
  {
    if bits != [] {
      var front, bit := bits[..|bits| - 1], bits[|bits| - 1];
      CounterTracksStuffing(front);
      StuffedRun(front);
      CountBitTracks(Counted(front), Stuffed(front), bit);
    }
  }

  lemma TakeOne(before: Bits, s: Bits, now: Bits, k: nat)
    requires k < |s| && now + s[k..] == before + s
    ensures now + [s[k]] + s[k + 1..] == before + s
  {
  }

  /** Bit `i` of an unsigned value: `(value >> i) & 1`. */
  predicate BitOf(value: nat, i: nat) {
    if i == 0 then value % 2 == 1 else BitOf(value / 2, i - 1)
  }

  /** The low `n` bits, most significant first. */
  function BitsOf(value: nat, n: nat): Bits {
    seq(n, k requires 0 <= k < n => BitOf(value, n - 1 - k))
  }

  /** Bit `i` of a 32-bit word: `(value >> i) & 1`, shifting one place at a time. */
  predicate WordBit(value: bv32, i: nat) {
    if i == 0 then value & 1 == 1 else WordBit(value >> 1, i - 1)
  }

  /** The low `n` bits of a word, most significant first. */
  function WordBits(value: bv32, n: nat): Bits {
    seq(n, k requires 0 <= k < n => WordBit(value, n - 1 - k))
  }

  lemma ShiftRegister(crc: bv16, k: nat)
    requires k < 14
    ensures RegisterBit(crc, k) == RegisterBit(crc >> 1, k + 1) && (crc as bv32) >> 1 == (crc >> 1) as bv32
  {
  }

  lemma {:induction false} SameBit(crc: bv16, k: nat)
    requires k < 15
    ensures WordBit(crc as bv32, 14 - k) == RegisterBit(crc, k)
    decreases 15 - k
  {
    if k < 14 {
      ShiftRegister(crc, k);
      SameBit(crc >> 1, k + 1);
    }
  }

  /** The 15 low bits of the register's word are the register, most significant bit first. */
  lemma WordBitsAreRegister(crc: bv16)
    ensures WordBits(crc as bv32, 15) == Register(crc)
  {
    forall k | 0 <= k < 15 ensures WordBits(crc as bv32, 15)[k] == Register(crc)[k] { SameBit(crc, k); }
  }

  function PayloadBits(data: Bytes, n: nat): Bits
    requires n <= |data|
  {
    if n == 0 then [] else PayloadBits(data, n - 1) + BitsOf(data[n - 1], 8)
  }

  lemma {:induction false} PayloadBitsLength(data: Bytes, n: nat)
    requires n <= |data|
    ensures |PayloadBits(data, n)| == 8 * n
  {
    if n > 0 { PayloadBitsLength(data, n - 1); }
  }

  lemma PayloadStep(before: Bits, data: Bytes, n: nat)
    requires n < |data|
    ensures before + PayloadBits(data, n) + BitsOf(data[n], 8) == before + PayloadBits(data, n + 1)
  {
  }

  class CanBitCounter {
    var crc: bv16
    var state: Run
    /** The bits counted so far, and those of them that went through the CRC register. */
    ghost var bits: Bits
    ghost var covered: Bits

    ghost predicate Valid() reads this {
      state == Counted(bits) && crc == Crc(covered)
    }

    constructor ()
      ensures Valid() && bits == [] && covered == []
    {
      crc, state := 0, NoBits;
      bits, covered := [], [];
    }

    method Count(bit: bool)
      requires state == Counted(bits)
      modifies this`state, this`bits
      ensures state == Counted(bits) && bits == old(bits) + [bit]
    {
      CountedStep(bits, bit);
      state := state.(total := state.total + 1);
      if state.isSet && bit == state.prev {
        state := state.(run := state.run + 1);
      } else {
        state := state.(prev := bit, run := 1, isSet := true);
      }
      if state.run == 5 {
        state := state.(total := state.total + 1);
        state := state.(prev := !state.prev, run := 1);
      }
      bits := bits + [bit];
    }

    /** One bit through the register and the counter. */
    method CountCRC(bit: bool)
      requires Valid()
      modifies this
      ensures Valid() && bits == old(bits) + [bit] && covered == old(covered) + [bit]
    {
      CrcAppend(covered, bit);
      crc := Shift(crc, bit);
      covered := covered + [bit];
      Count(bit);
    }

    method AddCRC(value: nat, n: nat)
      requires Valid()
      modifies this
      ensures Valid()
      ensures bits == old(bits) + BitsOf(value, n) && covered == old(covered) + BitsOf(value, n)
    {
      ghost var s := BitsOf(value, n);
      for k := 0 to n
        invariant Valid()
        invariant bits + s[k..] == old(bits) + s
        invariant covered + s[k..] == old(covered) + s
      {
        TakeOne(old(bits), s, bits, k);
        TakeOne(old(covered), s, covered, k);
        CountCRC(BitOf(value, n - 1 - k));
      }
    }

    method AddPayload(data: Bytes, n: nat)
      requires Valid() && n <= |data|
      modifies this
      ensures Valid()
      ensures bits == old(bits) + PayloadBits(data, n) && covered == old(covered) + PayloadBits(data, n)
    {
      for i := 0 to n
        invariant Valid()
        invariant bits == old(bits) + PayloadBits(data, i) && covered == old(covered) + PayloadBits(data, i)
      {
        PayloadStep(old(bits), data, i);
        PayloadStep(old(covered), data, i);
        AddCRC(data[i], 8);
      }
    }

    /** Bits that do not go through the register: the CRC sequence itself. */
    method Add(value: bv32, n: nat)
      requires state == Counted(bits)
      modifies this`state, this`bits
      ensures state == Counted(bits) && bits == old(bits) + WordBits(value, n)
    {
      ghost var s := WordBits(value, n);
      for k := 0 to n
        invariant state == Counted(bits) && bits + s[k..] == old(bits) + s
      {
        TakeOne(old(bits), s, bits, k);
        Count(WordBit(value, n - 1 - k));
      }
    }
  }

  /** The FD counter: the same run, with the bits split between the two phases. */
  class CanFDStuffCounter {
    var nominal: nat
    var data: nat
    var state: Run
    ghost var bits: Bits

    ghost predicate Valid() reads this {
      state == Counted(bits) && nominal + data == state.total
    }

    constructor ()
      ensures Valid() && bits == [] && nominal == data == 0
    {
      nominal, data, state := 0, 0, NoBits;
      bits := [];
    }

    method Increment(dataPhase: bool)
      modifies this`nominal, this`data
      ensures nominal == old(nominal) + (if dataPhase then 0 else 1)
      ensures data == old(data) + (if dataPhase then 1 else 0)
    {
      if dataPhase { data := data + 1; } else { nominal := nominal + 1; }
    }

    method Count(bit: bool, dataPhase: bool)
      requires Valid()
      modifies this
      ensures Valid() && bits == old(bits) + [bit]
      ensures if dataPhase then nominal == old(nominal) else data == old(data)
    {
      CountedStep(bits, bit);
      Increment(dataPhase);
      state := state.(total := state.total + 1);
      if state.isSet && bit == state.prev {
        state := state.(run := state.run + 1);
      } else {
        state := state.(prev := bit, run := 1, isSet := true);
      }
      if state.run == 5 {
        Increment(dataPhase);
        state := state.(total := state.total + 1);
        state := state.(prev := !state.prev, run := 1);
      }
      bits := bits + [bit];
    }

    method Add(value: nat, n: nat, dataPhase: bool)
      requires Valid()
      modifies this
      ensures Valid() && bits == old(bits) + BitsOf(value, n)
      ensures if dataPhase then nominal == old(nominal) else data == old(data)
    {
      ghost var s := BitsOf(value, n);
      for k := 0 to n
        invariant Valid() && bits + s[k..] == old(bits) + s
        invariant if dataPhase then nominal == old(nominal) else data == old(data)
      {
        TakeOne(old(bits), s, bits, k);
        Count(BitOf(value, n - 1 - k), dataPhase);
      }
    }

    method AddPayload(payload: Bytes, n: nat, dataPhase: bool)
      requires Valid() && n <= |payload|
      modifies this
      ensures Valid() && bits == old(bits) + PayloadBits(payload, n)
      ensures if dataPhase then nominal == old(nominal) else data == old(data)
    {
      for i := 0 to n
        invariant Valid() && bits == old(bits) + PayloadBits(payload, i)
        invariant if dataPhase then nominal == old(nominal) else data == old(data)
      {
        PayloadStep(old(bits), payload, i);
        Add(payload[i], 8, dataPhase);
      }
    }
  }

  // ---------- frames ----------

  /** Start of frame to the DLC of a classic base frame. */
  function ClassicHeader(f: Can.Frame): Bits {
    BitsOf(0, 1) + BitsOf(f.id, 11) + BitsOf(0, 1) + BitsOf(0, 1) + BitsOf(0, 1) + BitsOf(f.dlc % 16, 4)
  }

  function ClassicBody(f: Can.Frame): Bits {
    ClassicHeader(f) + PayloadBits(f.data, Min(Can.DataLength(f), 8))
  }

  /** Everything that is stuffed: the body and its CRC sequence. */
  function ClassicStuffRegion(f: Can.Frame): Bits {
    ClassicBody(f) + Register(Crc(ClassicBody(f)))
  }

  /** On-wire bits: the stuffed region, then CRC delimiter, ACK, ACK delimiter, seven bits of EOF
      and three of intermission. */
  function ClassicFrameBits(f: Can.Frame): nat {
    |Stuffed(ClassicStuffRegion(f))| + 1 + 1 + 1 + 7 + 3
  }

  method CountClassicHeader(f: Can.Frame) returns (counter: CanBitCounter)
    ensures fresh(counter) && counter.Valid()
    ensures counter.bits == counter.covered == ClassicHeader(f)
  {
    counter := new CanBitCounter();
    counter.AddCRC(0, 1);
    assert counter.bits == BitsOf(0, 1);
    counter.AddCRC(f.id, 11);
    counter.AddCRC(0, 1);
    counter.AddCRC(0, 1);
    counter.AddCRC(0, 1);
    counter.AddCRC(f.dlc % 16, 4);
  }

  /** The CRC sequence: the register's low 15 bits. */
  method CountSequence(counter: CanBitCounter)
    requires counter.state == Counted(counter.bits)
    modifies counter`state, counter`bits
    ensures counter.state == Counted(counter.bits)
    ensures counter.bits == old(counter.bits) + Register(counter.crc)
  {
    WordBitsAreRegister(counter.crc);
    counter.Add(counter.crc as bv32, 15);
  }

  method ClassicCANFrameBits(f: Can.Frame) returns (total: nat)
    ensures total == ClassicFrameBits(f)
  {
    var payload := Min(Can.DataLength(f), 8);
    var counter := CountClassicHeader(f);
    counter.AddPayload(f.data, payload);
    CountSequence(counter);
    CounterTracksStuffing(counter.bits);
    total := counter.state.total + 1 + 1 + 1 + 7 + 3;
  }

  /** The documented bounds: 47 + 8p bits without stuffing, at most 55 + 10p with it. */
  lemma ClassicBounds(f: Can.Frame)
    ensures var p := Min(Can.DataLength(f), 8);
            47 + 8 * p <= ClassicFrameBits(f) <= 55 + 10 * p
  {
    PayloadBitsLength(f.data, Min(Can.DataLength(f), 8));
    StuffingBound(ClassicStuffRegion(f));
  }

  /** Start of frame to the BRS bit: the nominal phase. */
  function FDNominalBody(f: Can.Frame): Bits {
    BitsOf(0, 1) + BitsOf(f.id, 11) + BitsOf(0, 1) + BitsOf(0, 1) + BitsOf(1, 1) + BitsOf(0, 1)
    + BitsOf(if f.brs then 1 else 0, 1)
  }

  /** ESI to the end of the data field: the data phase when the bit rate switches. */
  function FDDataBody(f: Can.Frame): Bits {
    BitsOf(0, 1) + BitsOf(f.dlc % 16, 4) + PayloadBits(f.data, Min(Can.DataLength(f), 64))
  }

  const CRC17_FIELD := 4 + 17 + 6 + 1
  const CRC21_FIELD := 4 + 21 + 7 + 1
  const ACK_TRAILER := 1 + 1 + 7 + 3

  function CRCField(f: Can.Frame): nat {
    if Min(Can.DataLength(f), 64) > 16 then CRC21_FIELD else CRC17_FIELD
  }

  /** Nominal and data bits of an ISO CAN FD base frame. The stuffing run continues over the
      rate switch, so the data phase is what the whole stuffed list adds to the nominal part. */
  function FDFrameBits(f: Can.Frame): (int, int) {
    var nominal := |Stuffed(FDNominalBody(f))|;
    var all := |Stuffed(FDNominalBody(f) + FDDataBody(f))|;
    if f.brs then (nominal + ACK_TRAILER, all - nominal + CRCField(f))
    else (all + CRCField(f) + ACK_TRAILER, 0)
  }

  method CountFDNominal(f: Can.Frame) returns (counter: CanFDStuffCounter)
    ensures fresh(counter) && counter.Valid()
    ensures counter.bits == FDNominalBody(f) && counter.data == 0
  {
    counter := new CanFDStuffCounter();
    counter.Add(0, 1, false);
    assert counter.bits == BitsOf(0, 1);
    counter.Add(f.id, 11, false);
    counter.Add(0, 1, false);
    counter.Add(0, 1, false);
    counter.Add(1, 1, false);
    counter.Add(0, 1, false);
    counter.Add(if f.brs then 1 else 0, 1, false);
  }

  method CountFDData(counter: CanFDStuffCounter, f: Can.Frame, dataPhase: bool)
    requires counter.Valid()
    modifies counter
    ensures counter.Valid() && counter.bits == old(counter.bits) + FDDataBody(f)
    ensures if dataPhase then counter.nominal == old(counter.nominal) else counter.data == old(counter.data)
  {
    var payload := Min(Can.DataLength(f), 64);
    counter.Add(0, 1, dataPhase);
    counter.Add(f.dlc % 16, 4, dataPhase);
    counter.AddPayload(f.data, payload, dataPhase);
    assert counter.bits == old(counter.bits) + FDDataBody(f);
  }

  method CanFDFrameBits(f: Can.Frame) returns (arbBits: int, dataBits: int)
    ensures (arbBits, dataBits) == FDFrameBits(f)
  {
    var counter := CountFDNominal(f);
    CounterTracksStuffing(counter.bits);
    CountFDData(counter, f, f.brs);
    CounterTracksStuffing(counter.bits);
    var crcFieldBits := if Min(Can.DataLength(f), 64) > 16 then CRC21_FIELD else CRC17_FIELD;
    arbBits, dataBits := counter.nominal, counter.data;
    if f.brs {
      dataBits := dataBits + crcFieldBits;
    } else {
      arbBits := arbBits + crcFieldBits;
    }
    arbBits := arbBits + ACK_TRAILER;
  }

  /** The FD CRC field by the standard (CRC field of ISO 11898-1:2015): a CRC of 17 bits for up to 16 data
      bytes and of 21 beyond, behind a stuff count of 4, a fixed stuff bit before these and after each four
      of them, and the delimiter. */
  function StandardCRCField(dataBytes: nat): nat {
    var checked := 4 + if dataBytes <= 16 then 17 else 21;
    checked + (checked + 3) / 4 + 1
  }

  lemma CRCFieldIsStandard(f: Can.Frame)
    ensures CRCField(f) == StandardCRCField(Min(Can.DataLength(f), 64))
  {
  }

  lemma FDLengths(f: Can.Frame)
    ensures var n := 22 + 8 * Min(Can.DataLength(f), 64);
            var nominal, all := |Stuffed(FDNominalBody(f))|, |Stuffed(FDNominalBody(f) + FDDataBody(f))|;
            17 <= nominal <= 21 && nominal + n - 17 <= all && n <= all <= n + (n - 1) / 4
  {
    PayloadBitsLength(f.data, Min(Can.DataLength(f), 64));
    StuffingBound(FDNominalBody(f));
    StuffingBound(FDNominalBody(f) + FDDataBody(f));
    StuffedGrows(FDNominalBody(f), FDDataBody(f));
  }

  /** Both phases together are the stuffed length of the whole body plus the CRC field and twelve bits of
      trailer, at most a quarter longer than the body, and the data phase is empty exactly without a switch. */
  lemma FDBounds(f: Can.Frame)
    ensures var (arb, data) := FDFrameBits(f);
            var p, crc := Min(Can.DataLength(f), 64), StandardCRCField(Min(Can.DataLength(f), 64));
            var n := 22 + 8 * p;
            && n + crc + 12 <= arb + data <= n + (n - 1) / 4 + crc + 12
            && 29 <= arb
            && (if f.brs then arb <= 33 && data >= crc + 5 + 8 * p else data == 0)
  {
    FDLengths(f);
    CRCFieldIsStandard(f);
  }

  lemma {:induction false} StuffedGrows(a: Bits, b: Bits)
    ensures |Stuffed(a)| + |b| <= |Stuffed(a + b)|
    decreases |b|
  {
    if b == [] {
      assert a + b == a;
    } else {
      var front, bit := b[..|b| - 1], b[|b| - 1];
      StuffedGrows(a, front);
      StepByStep(a + front, bit);
      assert a + front + [bit] == a + b;
    }
  }
}
