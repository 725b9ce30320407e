/** The CRC-15 register of driver/internal/backend/busload.go, and what it computes: the
    remainder of a long division of bit lists by the generator polynomial (section 3.1.1 of the
    Bosch CAN Specification 2.0, Part A). */
module Crc15 {
  import opened BitStuffing

  /** x^15 + x^14 + x^10 + x^8 + x^7 + x^4 + x^3 + 1, highest power first. */
  const POLYNOMIAL: Bits := [true] + LOWER

  /** Its coefficients below x^15: position 0 is the power 14. */
  const LOWER: Bits := seq(15, j => Flips(j))

  predicate Flips(j: int) { j == 0 || j == 4 || j == 6 || j == 7 || j == 10 || j == 11 || j == 14 }

  /** One bit into the register, on the word the source uses. */
  function Shift(crc: bv16, bit: bool): bv16 {
    var next := (crc << 1) & 0x7fff;
    if (((crc >> 14) & 1) == 1) != bit then next ^ 0x4599 else next
  }

  function Crc(bits: Bits): bv16 {
    if bits == [] then 0 else Shift(Crc(bits[..|bits| - 1]), bits[|bits| - 1])
  }

  /** The mask of register position `j`; position 0 is the most significant of the 15 bits. */
  function Mask(j: nat): bv16 {
    if j == 0 then 0x4000
    else if j == 1 then 0x2000
    else if j == 2 then 0x1000
    else if j == 3 then 0x0800
    else if j == 4 then 0x0400
    else if j == 5 then 0x0200
    else if j == 6 then 0x0100
    else if j == 7 then 0x0080
    else if j == 8 then 0x0040
    else if j == 9 then 0x0020
    else if j == 10 then 0x0010
    else if j == 11 then 0x0008
    else if j == 12 then 0x0004
    else if j == 13 then 0x0002
    else 0x0001
  }

  predicate RegisterBit(crc: bv16, j: nat) { crc & Mask(j) != 0 }

  /** The 15 register bits, most significant first. */
  function Register(crc: bv16): Bits { seq(15, j requires 0 <= j => RegisterBit(crc, j)) }

  // ---------- the register as a list, for any generator of degree 15 ----------

  function Xor(a: Bits, b: Bits): Bits
    requires |a| == |b|
  {
    seq(|a|, j requires 0 <= j < |a| => a[j] != b[j])
  }

  function Zeros(n: nat): Bits { seq(n, _ => false) }

  predicate Generator(g: Bits) { |g| == 16 && g[0] }

  function ListShift(g: Bits, r: Bits, bit: bool): Bits
    requires Generator(g) && |r| == 15
  {
    var next := r[1..] + [false];
    if r[0] != bit then Xor(next, g[1..]) else next
  }

  function ListCrc(g: Bits, r: Bits, bits: Bits): Bits
    requires Generator(g) && |r| == 15
    decreases |bits|
  {
    if bits == [] then r else ListCrc(g, ListShift(g, r, bits[0]), bits[1..])
  }

  lemma {:induction false} ListCrcConcat(g: Bits, r: Bits, a: Bits, b: Bits)
    requires Generator(g) && |r| == 15
    ensures |ListCrc(g, r, a)| == 15 && ListCrc(g, r, a + b) == ListCrc(g, ListCrc(g, r, a), b)
    decreases |a|
  {
    if a == [] {
      assert a + b == b;
    } else {
      ListCrcConcat(g, ListShift(g, r, a[0]), a[1..], b);
      assert (a + b)[1..] == a[1..] + b;
    }
  }

  lemma ListCrcAppend(g: Bits, r: Bits, bits: Bits, bit: bool)
    requires Generator(g) && |r| == 15
    ensures |ListCrc(g, r, bits)| == 15
    ensures ListCrc(g, r, bits + [bit]) == ListShift(g, ListCrc(g, r, bits), bit)
  {
    ListCrcConcat(g, r, bits, [bit]);
    assert [bit][1..] == [];
  }

  /** Shifting a register's own bits through it empties it. */
  lemma {:induction false} OwnBits(g: Bits, r: Bits, k: nat)
    requires Generator(g) && |r| == 15 && k <= 15
    ensures ListCrc(g, r, r[..k]) == r[k..] + Zeros(k)
  {
    if k == 0 {
      assert r[..0] == [] && r[0..] + Zeros(0) == r;
    } else {
      OwnBits(g, r, k - 1);
      ListCrcAppend(g, r, r[..k - 1], r[k - 1]);
      assert r[..k] == r[..k - 1] + [r[k - 1]];
      assert (r[k - 1..] + Zeros(k - 1))[1..] + [false] == r[k..] + Zeros(k);
    }
  }

  lemma ListSeesZero(g: Bits, bits: Bits)
    requires Generator(g)
    ensures |ListCrc(g, Zeros(15), bits)| == 15
    ensures ListCrc(g, Zeros(15), bits + ListCrc(g, Zeros(15), bits)) == Zeros(15)
  {
    ListCrcConcat(g, Zeros(15), bits, []);
    var r := ListCrc(g, Zeros(15), bits);
    ListCrcConcat(g, Zeros(15), bits, r);
    OwnBits(g, r, 15);
    assert r[..15] == r && r[15..] + Zeros(15) == Zeros(15);
  }

  // ---------- long division ----------

  /** The remainder of `bits`, read as a polynomial, divided by the generator. */
  function Remainder(g: Bits, bits: Bits): Bits
    requires Generator(g)
    decreases |bits|
  {
    if |bits| < 16 then bits
    else if bits[0] then Remainder(g, Xor(bits[..16], g)[1..] + bits[16..])
    else Remainder(g, bits[1..])
  }

  /** The dividend that is left when the register holds `r` and `bits` are still to come. */
  function Dividend(r: Bits, bits: Bits): Bits
    requires |r| == 15
  {
    var d := bits + Zeros(15);
    Xor(d[..15], r) + d[15..]
  }

  /** One step of the division leaves the dividend of the shifted register. */
  lemma NextDividend(g: Bits, r: Bits, bits: Bits)
    requires Generator(g) && |r| == 15 && bits != []
    ensures var w := Dividend(r, bits);
            && |w| >= 16 && w[0] == (bits[0] != r[0])
            && (if w[0] then Xor(w[..16], g)[1..] + w[16..] else w[1..])
               == Dividend(ListShift(g, r, bits[0]), bits[1..])
  {
    var w, d, r' := Dividend(r, bits), bits + Zeros(15), ListShift(g, r, bits[0]);
    var next := if w[0] then Xor(w[..16], g)[1..] + w[16..] else w[1..];
    var want := Dividend(r', bits[1..]);
    assert d[1..] == bits[1..] + Zeros(15);
    assert |next| == |want|;
    forall j | 0 <= j < |next| ensures next[j] == want[j] {
      if j < 15 {
        assert want[j] == (d[j + 1] != r'[j]);
        if j < 14 { assert w[j + 1] == (d[j + 1] != r[j + 1]); } else { assert w[j + 1] == d[j + 1]; }
        if w[0] {
          var x := Xor(w[..16], g);
          assert next[j] == x[1..][j] == x[j + 1] == (w[..16][j + 1] != g[j + 1]);
        }
      } else {
        assert want[j] == d[j + 1] == w[j + 1];
      }
    }
  }

  lemma {:induction false} RegisterIsRemainder(g: Bits, r: Bits, bits: Bits)
    requires Generator(g) && |r| == 15
    ensures ListCrc(g, r, bits) == Remainder(g, Dividend(r, bits))
    decreases |bits|
  {
    var w := Dividend(r, bits);
    if bits == [] {
      assert w == r;
    } else {
      var r', rest := ListShift(g, r, bits[0]), bits[1..];
      RegisterIsRemainder(g, r', rest);
      var next := if w[0] then Xor(w[..16], g)[1..] + w[16..] else w[1..];
      NextDividend(g, r, bits);
      assert next == Dividend(r', rest);
    }
  }

  // ---------- the word register is the list register ----------

  lemma ShiftBit(crc: bv16, j: nat)
    requires j < 15
    ensures RegisterBit((crc << 1) & 0x7fff, j) == if j < 14 then RegisterBit(crc, j + 1) else false
  {
  }

  /** Exclusive-or with 0x4599 flips exactly the positions of the generator's lower coefficients. */
  lemma XorWord(n: bv16)
    ensures Register(n ^ 0x4599) == Xor(Register(n), LOWER)
  {
  }

  lemma ShiftWord(crc: bv16)
    ensures Register((crc << 1) & 0x7fff) == Register(crc)[1..] + [false]
  {
    var x, r := Register((crc << 1) & 0x7fff), Register(crc);
    forall j | 0 <= j < 15 ensures x[j] == (r[1..] + [false])[j] {
      ShiftBit(crc, j);
    }
  }

  /** The word operations are the list operations. */
  lemma ShiftIsListShift(crc: bv16, bit: bool)
    ensures Register(Shift(crc, bit)) == ListShift(POLYNOMIAL, Register(crc), bit)
  {
    ShiftWord(crc);
    XorWord((crc << 1) & 0x7fff);
    assert POLYNOMIAL[1..] == LOWER;
  }

  lemma EmptyRegister()
    ensures Register(0) == Zeros(15)
  {
  }

  lemma CrcAppend(bits: Bits, bit: bool)
    ensures Crc(bits + [bit]) == Shift(Crc(bits), bit)
  {
  }

  lemma {:induction false} CrcIsListCrc(bits: Bits)
    ensures Register(Crc(bits)) == ListCrc(POLYNOMIAL, Zeros(15), bits)
  {
    if bits == [] {
      EmptyRegister();
    } else {
      var front, bit := bits[..|bits| - 1], bits[|bits| - 1];
      assert bits == front + [bit];
      CrcIsListCrc(front);
      CrcAppend(front, bit);
      ShiftIsListShift(Crc(front), bit);
      ListCrcAppend(POLYNOMIAL, Zeros(15), front, bit);
    }
  }

  /** The generator is that of CAN, by the powers of its terms. */
  lemma GeneratorIsCAN(power: nat)
    requires power <= 15
    ensures |POLYNOMIAL| == 16 && (POLYNOMIAL[15 - power] <==> power in {15, 14, 10, 8, 7, 4, 3, 0})
  {
  }

  /** The register holds the remainder of the message followed by 15 zeros. */
  lemma CrcIsRemainder(bits: Bits)
    ensures Register(Crc(bits)) == Remainder(POLYNOMIAL, bits + Zeros(15))
  {
    CrcIsListCrc(bits);
    RegisterIsRemainder(POLYNOMIAL, Zeros(15), bits);
    assert Dividend(Zeros(15), bits) == bits + Zeros(15);
  }

  /** What a receiver checks: a message followed by its own CRC sequence leaves the register empty. */
  lemma ReceiverSeesZero(bits: Bits)
    ensures Register(Crc(bits + Register(Crc(bits)))) == Zeros(15)
  {
    CrcIsListCrc(bits);
    ListSeesZero(POLYNOMIAL, bits);
    CrcIsListCrc(bits + ListCrc(POLYNOMIAL, Zeros(15), bits));
  }
}
