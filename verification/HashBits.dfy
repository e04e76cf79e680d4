/**
  The bit operations of portable hashing (src/basilisp/lang/hashing.py:28-61),
  between numbers and their 32 bits.
*/
module HashBits {
  import opened Hashing

  // ------------------------------------------------------------------
  // Numbers and their bits

  lemma Bits4(x: int) returns (b: bv4)
    requires 0 <= x < 0x10
    ensures b as int == x
  {
    b := x as bv4;
  }

  lemma Join8(hi: bv4, lo: bv4)
    ensures (((hi as bv8) << 4) | (lo as bv8)) as int == (hi as int) * 0x10 + lo as int
  {
  }

  lemma Join16(hi: bv8, lo: bv8)
    ensures (((hi as bv16) << 8) | (lo as bv16)) as int == (hi as int) * 0x100 + lo as int
  {
  }

  lemma Join32(hi: bv16, lo: bv16)
    ensures (((hi as bv32) << 16) | (lo as bv32)) as int == (hi as int) * 0x1_0000 + lo as int
  {
  }

  lemma Bits8(x: int) returns (b: bv8)
    requires 0 <= x < 0x100
    ensures b as int == x
  {
    var hi := Bits4(x / 0x10);
    var lo := Bits4(x % 0x10);
    Join8(hi, lo);
    b := ((hi as bv8) << 4) | (lo as bv8);
  }

  lemma Bits16(x: int) returns (b: bv16)
    requires 0 <= x < 0x1_0000
    ensures b as int == x
  {
    var hi := Bits8(x / 0x100);
    var lo := Bits8(x % 0x100);
    Join16(hi, lo);
    b := ((hi as bv16) << 8) | (lo as bv16);
  }

  lemma Bits32(x: Int32) returns (b: bv32)
    ensures b as int == x
  {
    var hi := Bits16(x / 0x1_0000);
    var lo := Bits16(x % 0x1_0000);
    Join32(hi, lo);
    b := ((hi as bv32) << 16) | (lo as bv32);
  }

  /** The bits of a number. */
  ghost predicate Bits(x: Int32, a: bv32) { x as bv32 == a }

  lemma BitsOf(x: Int32, a: bv32)
    requires a as int == x
    ensures Bits(x, a)
  {
    assert (a as int) as bv32 == a;
  }

  lemma SmallBits(a: bv32)
    ensures Narrow(a as int) == a as int
  {
  }

  lemma XorBits(x: Int32, y: Int32, a: bv32, b: bv32)
    requires Bits(x, a) && Bits(y, b)
    ensures Xor(x, y) == (a ^ b) as int
  {
    SmallBits(a ^ b);
  }

  lemma XorIs(x: Int32, y: Int32, r: Int32, a: bv32, b: bv32, c: bv32)
    requires a as int == x && b as int == y && c as int == r && c == a ^ b
    ensures Xor(x, y) == r
  {
    hide Bits, Xor;
    BitsOf(x, a);
    BitsOf(y, b);
    XorBits(x, y, a, b);
  }

  lemma ShiftBits(x: Int32, a: bv32)
    requires Bits(x, a)
    ensures ShiftRight(x, 13) == (a >> 13) as int && ShiftRight(x, 16) == (a >> 16) as int
  {
  }

  lemma Shift13(x: Int32, a: bv32, c: bv32)
    requires a as int == x && c == a >> 13
    ensures ShiftRight(x, 13) == c as int
  {
    hide Bits, ShiftRight;
    BitsOf(x, a);
    ShiftBits(x, a);
  }

  lemma Shift16(x: Int32, a: bv32, c: bv32)
    requires a as int == x && c == a >> 16
    ensures ShiftRight(x, 16) == c as int
  {
    hide Bits, ShiftRight;
    BitsOf(x, a);
    ShiftBits(x, a);
  }

  lemma Fold13(x: Int32, r: Int32, a: bv32, b: bv32, c: bv32)
    requires a as int == x && b as int == r && c == a >> 13 && b == a ^ c
    ensures Xor(x, ShiftRight(x, 13)) == r
  {
    hide Xor, ShiftRight;
    Shift13(x, a, c);
    XorIs(x, ShiftRight(x, 13), r, a, c, b);
  }

  lemma Fold16(x: Int32, r: Int32, a: bv32, b: bv32, c: bv32)
    requires a as int == x && b as int == r && c == a >> 16 && b == a ^ c
    ensures Xor(x, ShiftRight(x, 16)) == r
  {
    hide Xor, ShiftRight;
    Shift16(x, a, c);
    XorIs(x, ShiftRight(x, 16), r, a, c, b);
  }

  lemma RotateBits(x: Int32, a: bv32)
    requires Bits(x, a)
    ensures RotateLeft(x, 13) == ((a << 13) | (a >> 19)) as int
    ensures RotateLeft(x, 15) == ((a << 15) | (a >> 17)) as int
  {
  }

  lemma Rotate13(x: Int32, r: Int32, a: bv32, b: bv32)
    requires a as int == x && b as int == r && b == (a << 13) | (a >> 19)
    ensures RotateLeft(x, 13) == r
  {
    hide Bits, RotateLeft;
    BitsOf(x, a);
    RotateBits(x, a);
  }

  lemma Rotate15(x: Int32, r: Int32, a: bv32, b: bv32)
    requires a as int == x && b as int == r && b == (a << 15) | (a >> 17)
    ensures RotateLeft(x, 15) == r
  {
    hide Bits, RotateLeft;
    BitsOf(x, a);
    RotateBits(x, a);
  }

  // ------------------------------------------------------------------
  // The mixing steps on known bits

  lemma MixK1Is(x: Int32, p: Int32, q: Int32, a: bv32, b: bv32)
    requires Narrow(x * 0xCC9E2D51) == p && a as int == p && b as int == q && b == (a << 15) | (a >> 17)
    ensures MixK1(x) == Narrow(q * 0x1B873593)
  {
    hide RotateLeft, Narrow;
    Rotate15(p, q, a, b);
  }

  lemma MixH1Is(h: Int32, k: Int32, x: Int32, q: Int32, a: bv32, b: bv32, c: bv32, d: bv32)
    requires a as int == h && b as int == k && c as int == x && c == a ^ b
    requires d as int == q && d == (c << 13) | (c >> 19)
    ensures MixH1(h, k) == Narrow(q * 5 + 0xE6546B64)
  {
    hide RotateLeft, Xor, Narrow;
    XorIs(h, k, x, a, b, c);
    Rotate13(x, q, c, d);
  }

  lemma NarrowSmall(x: Int32)
    ensures Narrow(x) == x
  {
  }

  /** The three foldings of the final mix. */
  lemma FMixIs(h: Int32, length: Int32, x: Int32, y: Int32, y1: Int32, z: Int32, z1: Int32)
    requires Xor(h, length) == x && Xor(x, ShiftRight(x, 16)) == y
    requires Narrow(y * 0x85EBCA6B) == y1 && Xor(y1, ShiftRight(y1, 13)) == z && Narrow(z * 0xC2B2AE35) == z1
    ensures FMix(h, length) == Xor(z1, ShiftRight(z1, 16))
  {
    hide Xor, ShiftRight, Narrow;
    NarrowSmall(length);
  }
}
