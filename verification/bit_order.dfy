/** In which order bits go onto the wire (driver/internal/backend/busload.go:500-583, 595-600, 635-651): read
    back as binary numbers, first bit first, they give the frame. */
module BitOrder {
  import opened Basics
  import opened Arith
  import opened BitStuffing
  import opened Crc15
  import opened BitCounter
  import Can

  function Pow2(n: nat): (p: nat)
    ensures p > 0
  {
    if n == 0 then 1 else 2 * Pow2(n - 1)
  }

  /** The binary number that a receiver reads, most significant bit first. */
  function Read(bits: Bits): nat {
    if bits == [] then 0 else 2 * Read(bits[..|bits| - 1]) + if bits[|bits| - 1] then 1 else 0
  }

  lemma ReadNext(bits: Bits, bit: bool)
    ensures Read(bits + [bit]) == 2 * Read(bits) + if bit then 1 else 0
  {
    assert (bits + [bit])[..|bits|] == bits;
  }

  lemma HalfBits(value: nat, n: nat)
    requires n > 0
    ensures BitsOf(value, n) == BitsOf(value / 2, n - 1) + [value % 2 == 1]
  {
    var next := BitsOf(value / 2, n - 1) + [value % 2 == 1];
    forall k | 0 <= k < n ensures BitsOf(value, n)[k] == next[k] {
      assert k < n - 1 ==> BitOf(value, n - 1 - k) == BitOf(value / 2, n - 1 - k - 1);
    }
  }

  lemma LowAndHigh(value: nat, m: nat)
    requires m > 0
    ensures 2 * (value / 2 % m) + value % 2 == value % (2 * m)
  {
    var q, r := value / 2 / m, value / 2 % m;
    assert value / 2 == q * m + r;
    assert value == q * (2 * m) + (2 * r + value % 2);
    DivModUnique(value, 2 * m, q, 2 * r + value % 2);
  }

  /** The low `n` bits of a value are counted most significant first. */
  lemma {:induction false} BitsRead(value: nat, n: nat)
    ensures |BitsOf(value, n)| == n && Read(BitsOf(value, n)) == value % Pow2(n)
  {
    if n > 0 {
      HalfBits(value, n);
      ReadNext(BitsOf(value / 2, n - 1), value % 2 == 1);
      BitsRead(value / 2, n - 1);
      LowAndHigh(value, Pow2(n - 1));
    }
  }

  /** So are those of a 32-bit word: its least significant bit last, before it the bits of its upper half. */
  lemma WordBitsNext(w: bv32, n: nat)
    requires n > 0
    ensures WordBits(w, 0) == []
    ensures WordBits(w, n) == WordBits(w >> 1, n - 1) + [w & 1 == 1]
  {
    var next := WordBits(w >> 1, n - 1) + [w & 1 == 1];
    forall k | 0 <= k < n ensures WordBits(w, n)[k] == next[k] {
      assert k < n - 1 ==> WordBit(w, n - 1 - k) == WordBit(w >> 1, n - 1 - k - 1);
    }
  }

  lemma {:induction false} ReadAppend(a: Bits, b: Bits)
    ensures Read(a + b) == Read(a) * Pow2(|b|) + Read(b)
  {
    if b == [] {
      assert a + b == a;
    } else {
      var front, bit := b[..|b| - 1], b[|b| - 1];
      assert a + b == a + front + [bit] && b == front + [bit];
      ReadNext(a + front, bit);
      ReadNext(front, bit);
      ReadAppend(a, front);
      TwiceProduct(Read(a), Pow2(|front|));
    }
  }

  lemma TwiceProduct(x: int, y: int)
    ensures 2 * (x * y) == x * (2 * y)
  {
  }

  /** Appending a field of `n` bits. */
  lemma Field(a: Bits, value: nat, n: nat)
    ensures Read(a + BitsOf(value, n)) == Read(a) * Pow2(n) + value % Pow2(n)
  {
    BitsRead(value, n);
    ReadAppend(a, BitsOf(value, n));
  }

  lemma SmallPowers()
    ensures Pow2(1) == 2 && Pow2(4) == 16 && Pow2(8) == 256 && Pow2(11) == 2048
  {
    assert Pow2(2) == 4 && Pow2(3) == 8;
    assert Pow2(5) == 32 && Pow2(6) == 64 && Pow2(7) == 128;
    assert Pow2(9) == 512 && Pow2(10) == 1024;
  }

  // ---------- headers ----------

  lemma OneBit(a: Bits, value: nat)
    requires value < 2
    ensures |a + BitsOf(value, 1)| == |a| + 1 && Read(a + BitsOf(value, 1)) == 2 * Read(a) + value
  {
    SmallPowers();
    Field(a, value, 1);
  }

  /** Start of frame and identifier, in either format. */
  function Opening(f: Can.Frame): Bits { BitsOf(0, 1) + BitsOf(f.id, 11) }

  lemma OpeningReads(f: Can.Frame)
    ensures |Opening(f)| == 12 && Read(Opening(f)) == f.id % 2048
  {
    SmallPowers();
    BitsRead(0, 1);
    Field(BitsOf(0, 1), f.id, 11);
  }

  lemma FourBits(a: Bits, value: nat)
    ensures |a + BitsOf(value % 16, 4)| == |a| + 4 && Read(a + BitsOf(value % 16, 4)) == 16 * Read(a) + value % 16
  {
    SmallPowers();
    Field(a, value % 16, 4);
  }

  /** The 19 header bits of a classic frame: the identifier, three dominant bits, the DLC. */
  lemma ClassicHeaderReads(f: Can.Frame)
    ensures |ClassicHeader(f)| == 19 && Read(ClassicHeader(f)) == f.id % 2048 * 128 + f.dlc % 16
  {
    var a := Opening(f);
    OpeningReads(f);
    OneBit(a, 0);
    OneBit(a + BitsOf(0, 1), 0);
    OneBit(a + BitsOf(0, 1) + BitsOf(0, 1), 0);
    FourBits(a + BitsOf(0, 1) + BitsOf(0, 1) + BitsOf(0, 1), f.dlc);
  }

  /** The 17 bits of an FD frame up to the rate switch. */
  lemma FDNominalReads(f: Can.Frame)
    ensures |FDNominalBody(f)| == 17
    ensures Read(FDNominalBody(f)) == f.id % 2048 * 32 + 4 + if f.brs then 1 else 0
  {
    var a := Opening(f);
    OpeningReads(f);
    OneBit(a, 0);
    OneBit(a + BitsOf(0, 1), 0);
    OneBit(a + BitsOf(0, 1) + BitsOf(0, 1), 1);
    OneBit(a + BitsOf(0, 1) + BitsOf(0, 1) + BitsOf(1, 1), 0);
    OneBit(a + BitsOf(0, 1) + BitsOf(0, 1) + BitsOf(1, 1) + BitsOf(0, 1), if f.brs then 1 else 0);
  }

  // ---------- data ----------

  /** The data field is the bytes in order, each most significant bit first. */
  lemma {:induction false} PayloadReads(data: Bytes, n: nat, i: nat)
    requires i < n <= |data|
    ensures |PayloadBits(data, n)| == 8 * n && Read(PayloadBits(data, n)[8 * i..8 * i + 8]) == data[i]
  {
    SmallPowers();
    PayloadBitsLength(data, n);
    PayloadBitsLength(data, n - 1);
    BitsRead(data[n - 1], 8);
    if i < n - 1 {
      PayloadReads(data, n - 1, i);
      assert PayloadBits(data, n)[8 * i..8 * i + 8] == PayloadBits(data, n - 1)[8 * i..8 * i + 8];
    } else {
      assert PayloadBits(data, n)[8 * i..8 * i + 8] == BitsOf(data[n - 1], 8);
    }
  }

  /** A data byte in the middle of a frame. */
  lemma DataAt(head: Bits, data: Bytes, n: nat, tail: Bits, i: nat)
    requires i < n <= |data|
    ensures var all := head + PayloadBits(data, n) + tail;
            |all| == |head| + 8 * n + |tail| && Read(all[|head| + 8 * i..|head| + 8 * i + 8]) == data[i]
  {
    var all := head + PayloadBits(data, n) + tail;
    PayloadReads(data, n, i);
    assert all[|head| + 8 * i..|head| + 8 * i + 8] == PayloadBits(data, n)[8 * i..8 * i + 8];
  }

  // ---------- what the receiver gets ----------

  /** The bits carry these bytes one after another, from position `at` on. */
  predicate Carries(bits: Bits, at: nat, data: Bytes, n: nat)
    requires n <= |data|
  {
    at + 8 * n <= |bits| && forall i :: 0 <= i < n ==> Read(bits[at + 8 * i..at + 8 * i + 8]) == data[i]
  }

  lemma RegionCarries(head: Bits, data: Bytes, n: nat, tail: Bits)
    requires n <= |data|
    ensures var all := head + PayloadBits(data, n) + tail;
            |all| == |head| + 8 * n + |tail| && Carries(all, |head|, data, n)
  {
    PayloadBitsLength(data, n);
    var all := head + PayloadBits(data, n) + tail;
    forall i | 0 <= i < n ensures Read(all[|head| + 8 * i..|head| + 8 * i + 8]) == data[i] {
      DataAt(head, data, n, tail, i);
    }
  }

  /** What a receiver finds in the bits of a classic frame once it has dropped the stuff bits: the identifier,
      the DLC, the data bytes in order, and a CRC sequence that empties its register. */
  predicate ClassicReads(wire: Bits, f: Can.Frame) {
    var n := Min(Can.DataLength(f), 8);
    && |wire| == 19 + 8 * n + 15
    && Read(wire[..19]) == f.id % 2048 * 128 + f.dlc % 16
    && Carries(wire, 19, f.data, n)
    && Register(Crc(wire)) == Zeros(15)
  }

  lemma ClassicRegionReads(f: Can.Frame)
    ensures ClassicReads(ClassicStuffRegion(f), f)
  {
    var region, body := ClassicStuffRegion(f), ClassicBody(f);
    ReceiverSeesZero(body);
    ClassicHeaderReads(f);
    RegionCarries(ClassicHeader(f), f.data, Min(Can.DataLength(f), 8), Register(Crc(body)));
    assert region[..19] == ClassicHeader(f);
  }

  lemma ClassicFrameReads(f: Can.Frame)
    ensures ClassicReads(Unstuffed(Stuffed(ClassicStuffRegion(f))), f)
  {
    UnstuffStuffed(ClassicStuffRegion(f));
    ClassicRegionReads(f);
  }

  /** The same for the dynamically stuffed part of an FD frame: identifier and rate switch, ESI and DLC, data. */
  predicate FDReads(wire: Bits, f: Can.Frame) {
    var n := Min(Can.DataLength(f), 64);
    && |wire| == 17 + 5 + 8 * n
    && Read(wire[..17]) == f.id % 2048 * 32 + 4 + (if f.brs then 1 else 0)
    && Read(wire[17..22]) == f.dlc % 16
    && Carries(wire, 22, f.data, n)
  }

  /** ESI and DLC. */
  function FDControl(f: Can.Frame): Bits { BitsOf(0, 1) + BitsOf(f.dlc % 16, 4) }

  lemma FDControlReads(f: Can.Frame)
    ensures |FDControl(f)| == 5 && Read(FDControl(f)) == f.dlc % 16
  {
    BitsRead(0, 1);
    FourBits(BitsOf(0, 1), f.dlc);
  }

  lemma FDRegionReads(f: Can.Frame)
    ensures FDReads(FDNominalBody(f) + FDDataBody(f), f)
  {
    var n, body, control := Min(Can.DataLength(f), 64), FDNominalBody(f), FDControl(f);
    var wire, data := body + FDDataBody(f), PayloadBits(f.data, Min(Can.DataLength(f), 64));
    FDNominalReads(f);
    FDControlReads(f);
    RegionCarries(body + control, f.data, n, []);
    Regrouped(body, control, data);
    assert FDDataBody(f) == control + data;
  }

  lemma Regrouped(body: Bits, control: Bits, data: Bits)
    ensures body + (control + data) == body + control + data + []
    ensures (body + (control + data))[..|body|] == body
    ensures (body + (control + data))[|body|..|body| + |control|] == control
  {
  }

  lemma FDFrameReads(f: Can.Frame)
    ensures FDReads(Unstuffed(Stuffed(FDNominalBody(f) + FDDataBody(f))), f)
  {
    UnstuffStuffed(FDNominalBody(f) + FDDataBody(f));
    FDRegionReads(f);
  }
}
