/** The key by which the meter recognises a transmission's echo (driver/internal/backend/busload.go:429-444):
    64-bit unsigned arithmetic, with shifts and masks written as products, quotients and remainders. */
module FrameKey {
  import opened Basics
  import opened Arith
  import Can

  const TWO64 := 0x1_0000_0000_0000_0000
  const TWO48 := 0x1_0000_0000_0000
  const TWO16 := 0x1_0000

  /** The polynomial hash of the first `n` data bytes, wrapping around. */
  function Hash(data: Bytes, n: nat): nat
    requires n <= |data|
  {
    if n == 0 then 0 else (Hash(data, n - 1) * 131 + data[n - 1]) % TWO64
  }

  /** Bitwise or of two values below 8. */
  function Or3(a: nat, b: nat): nat {
    (if a / 4 % 2 == 1 || b / 4 % 2 == 1 then 4 else 0)
    + (if a / 2 % 2 == 1 || b / 2 % 2 == 1 then 2 else 0)
    + if a % 2 == 1 || b % 2 == 1 then 1 else 0
  }

  /** The low 16 bits: identifier, DLC and the format bit, which a DLC beyond 15 can set as well. */
  function LowPart(f: Can.Frame): nat {
    f.id % 2048 + f.dlc % 16 * 2048 + if f.fd || f.dlc / 16 % 2 == 1 then 32768 else 0
  }

  /** The bits above: the hash, with what is left of such a DLC in its lowest three bits. */
  function HighPart(f: Can.Frame, hash: nat): nat {
    hash / 8 % (TWO48 / 8) * 8 + Or3(hash % 8, f.dlc / 32)
  }

  function KeyLength(f: Can.Frame): nat { Min(Can.DataLength(f), 64) }

  function BusFrameKey(f: Can.Frame): nat {
    LowPart(f) + TWO16 * HighPart(f, Hash(f.data, KeyLength(f)))
  }

  method ComputeKey(f: Can.Frame) returns (key: nat)
    ensures key == BusFrameKey(f)
  {
    var n := Can.DataLength(f);
    if n > 64 { n := 64; }
    var hash := 0;
    for i := 0 to n
      invariant hash == Hash(f.data, i)
    {
      hash := (hash * 131 + f.data[i]) % TWO64;
    }
    key := LowPart(f) + TWO16 * HighPart(f, hash);
  }

  lemma {:induction false} HashOfPrefix(a: Bytes, b: Bytes, n: nat)
    requires n <= |a| && n <= |b| && a[..n] == b[..n]
    ensures Hash(a, n) == Hash(b, n)
  {
    if n > 0 {
      assert a[..n][n - 1] == b[..n][n - 1];
      assert a[..n - 1] == a[..n][..n - 1] == b[..n][..n - 1] == b[..n - 1];
      HashOfPrefix(a, b, n - 1);
    }
  }

  /** A frame and its echo have the same key: only identifier, DLC, format and the data that the DLC
      covers matter, not direction, device time, bit rate switch or the bytes beyond. */
  lemma EchoHasKey(f: Can.Frame, echo: Can.Frame)
    requires f.id == echo.id && f.dlc == echo.dlc && f.fd == echo.fd
    requires Can.DataLength(f) <= 64 && f.data[..Can.DataLength(f)] == echo.data[..Can.DataLength(f)]
    ensures BusFrameKey(f) == BusFrameKey(echo)
  {
    HashOfPrefix(f.data, echo.data, KeyLength(f));
  }

  /** Frames with different identifiers, lengths or formats never share a key, and those with one data
      byte share it exactly when the byte is the same. */
  lemma KeySeparates(f: Can.Frame, g: Can.Frame)
    requires f.id < 2048 && g.id < 2048 && f.dlc <= 15 && g.dlc <= 15
    ensures BusFrameKey(f) == BusFrameKey(g) ==> f.id == g.id && f.dlc == g.dlc && f.fd == g.fd
    ensures f.dlc == g.dlc == 1 && f.id == g.id && f.fd == g.fd
            ==> (BusFrameKey(f) == BusFrameKey(g) <==> f.data[0] == g.data[0])
  {
    LowParts(f, g);
    SameLow(LowPart(f), HighPart(f, Hash(f.data, KeyLength(f))), LowPart(g), HighPart(g, Hash(g.data, KeyLength(g))));
    if f.dlc == 1 && g.dlc == 1 {
      OneByte(f);
      OneByte(g);
    }
  }

  lemma LowParts(f: Can.Frame, g: Can.Frame)
    requires f.id < 2048 && g.id < 2048 && f.dlc <= 15 && g.dlc <= 15
    ensures LowPart(f) < TWO16 && LowPart(g) < TWO16
    ensures LowPart(f) == LowPart(g) ==> f.id == g.id && f.dlc == g.dlc && f.fd == g.fd
  {
  }

  lemma SameLow(a: nat, x: nat, b: nat, y: nat)
    requires a < TWO16 && b < TWO16
    ensures a + TWO16 * x == b + TWO16 * y <==> a == b && x == y
  {
  }

  lemma Or3Zero(a: nat)
    requires a < 8
    ensures Or3(a, 0) == a
  {
  }

  lemma OneByte(f: Can.Frame)
    requires f.dlc == 1
    ensures HighPart(f, Hash(f.data, KeyLength(f))) == f.data[0]
  {
    assert Hash(f.data, 1) == f.data[0];
    Or3Zero(f.data[0] % 8);
  }

  // ---------- one byte of many ----------

  /** The inverse of the multiplier modulo 2^48. */
  const INVERSE := 0x8CB3_C948_4E2B

  lemma SameRemainder(x: int, y: int, k: int)
    requires x - y == k * TWO48
    ensures x % TWO48 == y % TWO48
  {
    DivModUnique(x, TWO48, y / TWO48 + k, y % TWO48);
  }

  /** The multiplier is odd, so multiplying by it loses nothing modulo a power of two. */
  lemma CancelMultiplier(x: int, y: int)
    requires (131 * x) % TWO48 == (131 * y) % TWO48
    ensures x % TWO48 == y % TWO48
  {
    var k := 131 * x / TWO48 - 131 * y / TWO48;
    assert 131 * (x - y) == k * TWO48;
    var q := (131 * INVERSE - 1) / TWO48;
    assert 131 * INVERSE == q * TWO48 + 1;
    assert x - y == INVERSE * (131 * (x - y)) - (131 * INVERSE - 1) * (x - y);
    assert x - y == (INVERSE * k - q * (x - y)) * TWO48;
    SameRemainder(x, y, INVERSE * k - q * (x - y));
  }

  /** The wrap-around at 64 bits does not show in the low 48. */
  lemma LowHash(data: Bytes, n: nat)
    requires 0 < n <= |data|
    ensures Hash(data, n) % TWO48 == (131 * Hash(data, n - 1) + data[n - 1]) % TWO48
  {
    var h := Hash(data, n - 1) * 131 + data[n - 1];
    SameRemainder(h, h % TWO64, h / TWO64 * TWO16);
  }

  lemma ApartBy(x: int, y: int)
    requires x != y && -256 < x - y < 256
    ensures x % TWO48 != y % TWO48
  {
    var k := x / TWO48 - y / TWO48;
    assert x - y == k * TWO48 + (x % TWO48 - y % TWO48);
  }

  /** Data that differ in exactly one byte have different hashes in the low 48 bits. */
  lemma {:induction false} HashesApart(a: Bytes, b: Bytes, n: nat, i: nat)
    requires i < n && n <= |a| && n <= |b| && a[i] != b[i]
    requires forall j :: 0 <= j < n && j != i ==> a[j] == b[j]
    ensures Hash(a, n) % TWO48 != Hash(b, n) % TWO48
  {
    var x, y := Hash(a, n - 1), Hash(b, n - 1);
    LowHash(a, n);
    LowHash(b, n);
    if i == n - 1 {
      HashOfPrefix(a, b, n - 1);
      ApartBy(131 * x + a[i], 131 * y + b[i]);
    } else {
      HashesApart(a, b, n - 1, i);
      if (131 * x + a[n - 1]) % TWO48 == (131 * y + b[n - 1]) % TWO48 {
        SameSum(131 * x, 131 * y, a[n - 1]);
        CancelMultiplier(x, y);
      }
    }
  }

  lemma SameSum(x: int, y: int, c: int)
    requires (x + c) % TWO48 == (y + c) % TWO48
    ensures x % TWO48 == y % TWO48
  {
    SameRemainder(x, y, (x + c) / TWO48 - (y + c) / TWO48);
  }

  lemma HighIsLowHash(f: Can.Frame, hash: nat)
    requires f.dlc <= 15
    ensures HighPart(f, hash) == hash % TWO48
  {
    Or3Zero(hash % 8);
    var q := hash / 8 / (TWO48 / 8);
    DivModUnique(hash, TWO48, q, hash / 8 % (TWO48 / 8) * 8 + hash % 8);
  }

  /** Frames that differ in exactly one of the data bytes that the DLC covers never share a key. */
  lemma OneByteSeparates(f: Can.Frame, g: Can.Frame, i: nat)
    requires f.id == g.id && f.fd == g.fd && f.dlc == g.dlc <= 15
    requires i < Can.DataLength(f) <= 64 && f.data[i] != g.data[i]
    requires forall j :: 0 <= j < Can.DataLength(f) && j != i ==> f.data[j] == g.data[j]
    ensures BusFrameKey(f) != BusFrameKey(g)
  {
    var n := KeyLength(f);
    HashesApart(f.data, g.data, n, i);
    HighIsLowHash(f, Hash(f.data, n));
    HighIsLowHash(g, Hash(g.data, n));
    SameLow(LowPart(f), HighPart(f, Hash(f.data, n)), LowPart(g), HighPart(g, Hash(g.data, n)));
  }

  lemma TwoBytes(data: Bytes)
    requires |data| >= 2
    ensures Hash(data, 2) == data[0] as int * 131 + data[1]
  {
    assert Hash(data, 1) == data[0];
  }

  /** Longer data can collide: the multiplier is smaller than a byte's range. So a received frame can be
      taken for the echo of another transmission. */
  lemma KeysCollide(f: Can.Frame, g: Can.Frame)
    requires f.id == g.id && f.fd == g.fd && f.dlc == g.dlc == 2
    requires g.data[0] == f.data[0] as int + 1 && f.data[1] == g.data[1] as int + 131
    ensures BusFrameKey(f) == BusFrameKey(g) && f.data[..KeyLength(f)] != g.data[..KeyLength(g)]
  {
    TwoBytes(f.data);
    TwoBytes(g.data);
    assert f.data[..2][0] != g.data[..2][0];
  }
}
