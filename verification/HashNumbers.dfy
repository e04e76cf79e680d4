/**
  What the folds of portable hashing compute, and when collections collide
  (src/basilisp/lang/hashing.py:28-61, 191-216).
*/
module HashNumbers {
  import opened Hashing
  import opened HashBits

  // ------------------------------------------------------------------
  // What the folds compute

  function Power31(n: nat): nat { if n == 0 then 1 else 31 * Power31(n - 1) }

  /** The members' hashes as the coefficients of a polynomial in 31, the first one highest. */
  function Polynomial(hs: seq<Int32>): nat {
    if hs == [] then 0 else hs[0] * Power31(|hs| - 1) + Polynomial(hs[1..])
  }

  lemma {:induction false} PolynomialSnoc(hs: seq<Int32>, h: Int32)
    ensures Polynomial(hs + [h]) == 31 * Polynomial(hs) + h
  {
    if hs == [] {
      assert ([] + [h])[1..] == [];
      assert Power31(0) == 1;
    } else {
      PolynomialSnoc(hs[1..], h);
      assert (hs + [h])[1..] == hs[1..] + [h];
      var p := Power31(|hs| - 1);
      assert Power31(|hs|) == 31 * p;
      assert hs[0] * (31 * p) == 31 * (hs[0] * p);
    }
  }

  lemma NarrowTimes(x: int, c: int)
    ensures Narrow(31 * Narrow(x) + c) == Narrow(31 * x + c)
  {
    var q := x / WORD;
    assert 31 * x + c == (31 * (x % WORD) + c) + (31 * q) * WORD;
    NarrowShift(31 * (x % WORD) + c, 31 * q);
  }

  lemma NarrowShift(x: int, k: int)
    ensures Narrow(x + k * WORD) == Narrow(x)
  {
    var (q, r) := (x / WORD, x % WORD);
    assert x + k * WORD == (q + k) * WORD + r;
  }

  /** The hash fold is a polynomial in 31 of the members' hashes, wrapped to 32 bits. */
  lemma {:induction false} FoldIsPolynomial(hs: seq<Int32>)
    ensures Fold31(hs) == Narrow(Power31(|hs|) + Polynomial(hs))
    decreases |hs|
  {
    if hs != [] {
      var (init, last) := (hs[..|hs| - 1], hs[|hs| - 1]);
      FoldIsPolynomial(init);
      PolynomialSnoc(init, last);
      assert init + [last] == hs;
      NarrowTimes(Power31(|init|) + Polynomial(init), last);
      hide Narrow;
      assert 31 * (Power31(|init|) + Polynomial(init)) + last == Power31(|hs|) + Polynomial(hs);
    }
  }

  // ------------------------------------------------------------------
  // When collections collide

  /** Multiplication by a number with an inverse loses nothing. */
  lemma TimesInverse(c: nat, d: nat, x: Int32)
    requires Narrow(c * d) == 1
    ensures Narrow(d * Narrow(c * x)) == x
  {
    var (k, m, r) := (c * x / WORD, c * d / WORD, Narrow(c * x));
    assert c * x == k * WORD + r && c * d == m * WORD + 1;
    Regrouped(c, d, x);
    Spread(d, k, r);
    Spread(x, m, 1);
    assert d * r == x + (x * m - d * k) * WORD;
    hide Narrow;
    NarrowShift(x, x * m - d * k);
    NarrowSmall(x);
  }

  lemma Regrouped(c: int, d: int, x: int)
    ensures d * (c * x) == x * (c * d)
  {
  }

  lemma Spread(a: int, k: int, r: int)
    ensures a * (k * WORD + r) == (a * k) * WORD + a * r
  {
  }

  lemma TimesInjective(c: nat, d: nat, x: Int32, y: Int32)
    requires Narrow(c * d) == 1 && Narrow(x * c) == Narrow(y * c)
    ensures x == y
  {
    TimesInverse(c, d, x);
    TimesInverse(c, d, y);
  }

  lemma PlusInjective(c: int, x: Int32, y: Int32)
    requires Narrow(x + c) == Narrow(y + c)
    ensures x == y
  {
  }

  /** The rotations to the right that undo those to the left. */
  function Unrotated15(a: bv32): bv32 { (a >> 15) | (a << 17) }

  function Unrotated13(a: bv32): bv32 { (a >> 13) | (a << 19) }

  lemma Unrotate(a: bv32)
    ensures Unrotated15((a << 15) | (a >> 17)) == a && Unrotated13((a << 13) | (a >> 19)) == a
  {
    assert (((a << 15) | (a >> 17)) >> 15) | (((a << 15) | (a >> 17)) << 17) == a;
    assert (((a << 13) | (a >> 19)) >> 13) | (((a << 13) | (a >> 19)) << 19) == a;
  }

  lemma RecoverRotated15(a: bv32, b: bv32)
    requires b == (a << 15) | (a >> 17)
    ensures Unrotated15(b) == a
  {
    hide Unrotated15, Unrotated13;
    Unrotate(a);
  }

  lemma RecoverRotated13(a: bv32, b: bv32)
    requires b == (a << 13) | (a >> 19)
    ensures Unrotated13(b) == a
  {
    hide Unrotated15, Unrotated13;
    Unrotate(a);
  }

  lemma SameBits(a: bv32, b: bv32)
    requires a as int == b as int
    ensures a == b
  {
    assert (a as int) as bv32 == a && (b as int) as bv32 == b;
  }

  lemma Rotated15(x: Int32) returns (a: bv32, b: bv32)
    ensures a as int == x && b as int == RotateLeft(x, 15) && b == (a << 15) | (a >> 17)
  {
    hide Bits, RotateLeft;
    a := Bits32(x);
    BitsOf(x, a);
    RotateBits(x, a);
    b := (a << 15) | (a >> 17);
  }

  lemma Rotated13(x: Int32) returns (a: bv32, b: bv32)
    ensures a as int == x && b as int == RotateLeft(x, 13) && b == (a << 13) | (a >> 19)
  {
    hide Bits, RotateLeft;
    a := Bits32(x);
    BitsOf(x, a);
    RotateBits(x, a);
    b := (a << 13) | (a >> 19);
  }

  lemma Rotate15Injective(x: Int32, y: Int32)
    requires RotateLeft(x, 15) == RotateLeft(y, 15)
    ensures x == y
  {
    hide RotateLeft, Unrotated15;
    var a, b := Rotated15(x);
    var c, d := Rotated15(y);
    SameBits(b, d);
    RecoverRotated15(a, b);
    RecoverRotated15(c, d);
  }

  lemma Rotate13Injective(x: Int32, y: Int32)
    requires RotateLeft(x, 13) == RotateLeft(y, 13)
    ensures x == y
  {
    hide RotateLeft, Unrotated13;
    var a, b := Rotated13(x);
    var c, d := Rotated13(y);
    SameBits(b, d);
    RecoverRotated13(a, b);
    RecoverRotated13(c, d);
  }

  /** How to get back a number that its upper bits were mixed into. */
  function Unmixed13(a: bv32): bv32 { a ^ (a >> 13) ^ (a >> 26) }

  function Unmixed16(a: bv32): bv32 { a ^ (a >> 16) }

  lemma Unmix(a: bv32)
    ensures Unmixed13(a ^ (a >> 13)) == a && Unmixed16(a ^ (a >> 16)) == a
  {
    assert (a ^ (a >> 13)) ^ ((a ^ (a >> 13)) >> 13) ^ ((a ^ (a >> 13)) >> 26) == a;
    assert (a ^ (a >> 16)) ^ ((a ^ (a >> 16)) >> 16) == a;
  }

  lemma Recover13(a: bv32, b: bv32)
    requires b == a ^ (a >> 13)
    ensures Unmixed13(b) == a
  {
    hide Unmixed13, Unmixed16;
    Unmix(a);
  }

  lemma Recover16(a: bv32, b: bv32)
    requires b == a ^ (a >> 16)
    ensures Unmixed16(b) == a
  {
    hide Unmixed13, Unmixed16;
    Unmix(a);
  }

  lemma Folded13(x: Int32) returns (a: bv32, b: bv32)
    ensures a as int == x && b as int == Xor(x, ShiftRight(x, 13)) && b == a ^ (a >> 13)
  {
    hide Xor, ShiftRight;
    a := Bits32(x);
    b := FoldedBits13(x, a);
  }

  lemma FoldedBits13(x: Int32, a: bv32) returns (b: bv32)
    requires a as int == x
    ensures b as int == Xor(x, ShiftRight(x, 13)) && b == a ^ (a >> 13)
  {
    hide Xor, ShiftRight;
    var c := ShiftedBits13(x, a);
    b := XoredBits(x, ShiftRight(x, 13), a, c);
  }

  lemma ShiftedBits13(x: Int32, a: bv32) returns (c: bv32)
    requires a as int == x
    ensures c as int == ShiftRight(x, 13) && c == a >> 13
  {
    hide ShiftRight;
    c := a >> 13;
    Shift13(x, a, c);
  }

  lemma XoredBits(x: Int32, y: Int32, a: bv32, b: bv32) returns (c: bv32)
    requires a as int == x && b as int == y
    ensures c as int == Xor(x, y) && c == a ^ b
  {
    hide Bits, Xor;
    BitsOf(x, a);
    BitsOf(y, b);
    XorBits(x, y, a, b);
    c := a ^ b;
  }

  lemma ShiftedBits16(x: Int32, a: bv32) returns (c: bv32)
    requires a as int == x
    ensures c as int == ShiftRight(x, 16) && c == a >> 16
  {
    hide ShiftRight;
    c := a >> 16;
    Shift16(x, a, c);
  }

  lemma FoldedBits16(x: Int32, a: bv32) returns (b: bv32)
    requires a as int == x
    ensures b as int == Xor(x, ShiftRight(x, 16)) && b == a ^ (a >> 16)
  {
    hide Xor, ShiftRight;
    var c := ShiftedBits16(x, a);
    b := XoredBits(x, ShiftRight(x, 16), a, c);
  }

  lemma Folded16(x: Int32) returns (a: bv32, b: bv32)
    ensures a as int == x && b as int == Xor(x, ShiftRight(x, 16)) && b == a ^ (a >> 16)
  {
    hide Xor, ShiftRight;
    a := Bits32(x);
    b := FoldedBits16(x, a);
  }

  lemma Fold13Injective(x: Int32, y: Int32)
    requires Xor(x, ShiftRight(x, 13)) == Xor(y, ShiftRight(y, 13))
    ensures x == y
  {
    hide Xor, ShiftRight, Unmixed13;
    var a, b := Folded13(x);
    var c, d := Folded13(y);
    SameBits(b, d);
    Recover13(a, b);
    Recover13(c, d);
  }

  lemma Fold16Injective(x: Int32, y: Int32)
    requires Xor(x, ShiftRight(x, 16)) == Xor(y, ShiftRight(y, 16))
    ensures x == y
  {
    hide Xor, ShiftRight, Unmixed16;
    var a, b := Folded16(x);
    var c, d := Folded16(y);
    SameBits(b, d);
    Recover16(a, b);
    Recover16(c, d);
  }

  lemma XorCancels(a: bv32, b: bv32, c: bv32)
    requires a ^ c == b ^ c
    ensures a == b
  {
    assert (a ^ c) ^ c == a && (b ^ c) ^ c == b;
  }

  lemma XorInjective(x: Int32, y: Int32, k: Int32)
    requires Xor(x, k) == Xor(y, k)
    ensures x == y
  {
    hide Xor;
    var a := Bits32(x);
    var b := Bits32(y);
    var c := Bits32(k);
    var p := XoredBits(x, k, a, c);
    var q := XoredBits(y, k, b, c);
    SameBits(p, q);
    XorCancels(a, b, c);
  }

  lemma ZeroXor(x: Int32)
    ensures Xor(0, x) == x
  {
    hide Xor;
    var a := Bits32(x);
    var p := XoredBits(0, x, 0, a);
    assert 0 ^ a == a;
  }

  /** Mixing a collection's folded hash loses nothing: two collections of one size collide only when the folds do. */
  lemma MixInjective(h: Int32, g: Int32, count: nat)
    requires MixCollection(h, count) == MixCollection(g, count)
    ensures h == g
  {
    hide MixK1, MixH1, FMix;
    FMixInjective(MixH1(0, MixK1(h)), MixH1(0, MixK1(g)), count);
    MixH1Injective(MixK1(h), MixK1(g));
    MixK1Injective(h, g);
  }

  lemma MixK1Injective(x: Int32, y: Int32)
    requires MixK1(x) == MixK1(y)
    ensures x == y
  {
    hide RotateLeft, Narrow;
    var (p, q) := (Narrow(x * 0xCC9E2D51), Narrow(y * 0xCC9E2D51));
    Inverses();
    TimesInjective(0x1B873593, 0x56ED309B, RotateLeft(p, 15), RotateLeft(q, 15));
    Rotate15Injective(p, q);
    TimesInjective(0xCC9E2D51, 0xDEE13BB1, x, y);
  }

  lemma MixH1Injective(x: Int32, y: Int32)
    requires MixH1(0, x) == MixH1(0, y)
    ensures x == y
  {
    hide RotateLeft, Xor, Narrow;
    ZeroXor(x);
    ZeroXor(y);
    var p: int := RotateLeft(x, 13);
    var q: int := RotateLeft(y, 13);
    Inverses();
    NarrowAgain(p * 5, 0xE6546B64);
    NarrowAgain(q * 5, 0xE6546B64);
    PlusInjective(0xE6546B64, Narrow(p * 5), Narrow(q * 5));
    TimesInjective(5, 0xCCCCCCCD, p, q);
    Rotate13Injective(x, y);
  }

  lemma FMixInjective(x: Int32, y: Int32, length: nat)
    requires FMix(x, length) == FMix(y, length)
    ensures x == y
  {
    hide ShiftRight, Xor, Narrow;
    var k := Narrow(length);
    var (a, b) := (Xor(x, k), Xor(y, k));
    var a1: int := Xor(a, ShiftRight(a, 16));
    var b1: int := Xor(b, ShiftRight(b, 16));
    var (a2, b2) := (Narrow(a1 * 0x85EBCA6B), Narrow(b1 * 0x85EBCA6B));
    var a3: int := Xor(a2, ShiftRight(a2, 13));
    var b3: int := Xor(b2, ShiftRight(b2, 13));
    Inverses();
    Fold16Injective(Narrow(a3 * 0xC2B2AE35), Narrow(b3 * 0xC2B2AE35));
    TimesInjective(0xC2B2AE35, 0x7ED1B41D, a3, b3);
    Fold13Injective(a2, b2);
    TimesInjective(0x85EBCA6B, 0xA5CB9243, a1, b1);
    Fold16Injective(a, b);
    XorInjective(x, y, k);
  }

  /** The multipliers are odd, so each has an inverse. */
  lemma Inverses()
    ensures Narrow(0x1B873593 * 0x56ED309B) == 1 && Narrow(0xCC9E2D51 * 0xDEE13BB1) == 1
    ensures Narrow(5 * 0xCCCCCCCD) == 1 && Narrow(31 * 0xBDEF7BDF) == 1
    ensures Narrow(0xC2B2AE35 * 0x7ED1B41D) == 1 && Narrow(0x85EBCA6B * 0xA5CB9243) == 1
  {
  }

  lemma Congruent(x: int, y: int)
    ensures Narrow(x) == Narrow(y) <==> (x - y) % WORD == 0
  {
  }

  /** Two sequences of one length hash alike exactly when their polynomials agree in the lower 32 bits. */
  lemma SequencesCollide(hs: seq<Int32>, gs: seq<Int32>)
    requires |hs| == |gs|
    ensures Ordered(hs) == Ordered(gs) <==> (Polynomial(hs) - Polynomial(gs)) % WORD == 0
  {
    hide Narrow, MixCollection;
    FoldIsPolynomial(hs);
    FoldIsPolynomial(gs);
    Congruent(Power31(|hs|) + Polynomial(hs), Power31(|gs|) + Polynomial(gs));
    if Ordered(hs) == Ordered(gs) {
      MixInjective(Fold31(hs), Fold31(gs), |hs|);
    }
  }

  lemma Fold31Snoc(hs: seq<Int32>, h: Int32)
    ensures Fold31(hs + [h]) == Narrow(31 * Fold31(hs) + h)
  {
    assert (hs + [h])[..|hs|] == hs;
  }

  /** The same members after different beginnings make no difference to whether the folds agree. */
  lemma {:induction false} Fold31Suffix(hs: seq<Int32>, gs: seq<Int32>, more: seq<Int32>)
    ensures Fold31(hs + more) == Fold31(gs + more) <==> Fold31(hs) == Fold31(gs)
    decreases |more|
  {
    hide Narrow;
    if more == [] {
      assert hs + more == hs && gs + more == gs;
    } else {
      var (init, last) := (more[..|more| - 1], more[|more| - 1]);
      Fold31Suffix(hs, gs, init);
      assert hs + more == (hs + init) + [last] && gs + more == (gs + init) + [last];
      Fold31Snoc(hs + init, last);
      Fold31Snoc(gs + init, last);
      Step31(Fold31(hs + init), Fold31(gs + init), last);
    }
  }

  lemma Step31(x: Int32, y: Int32, c: Int32)
    ensures Narrow(31 * x + c) == Narrow(31 * y + c) ==> x == y
  {
    hide Narrow;
    if Narrow(31 * x + c) == Narrow(31 * y + c) {
      var p: int := x;
      var q: int := y;
      NarrowAgain(31 * p, c);
      NarrowAgain(31 * q, c);
      PlusInjective(c, Narrow(31 * p), Narrow(31 * q));
      Inverses();
      TimesInjective(31, 0xBDEF7BDF, x, y);
    }
  }

  /**
    The hash of a sequence depends on the order: exchanging two neighbours
    leaves it the same exactly when their hashes agree but for the sign bit.
  */
  lemma OrderMatters(before: seq<Int32>, a: Int32, b: Int32, after: seq<Int32>)
    ensures Ordered(before + [a, b] + after) == Ordered(before + [b, a] + after) <==> (a - b) % 0x8000_0000 == 0
  {
    hide Narrow, MixCollection;
    var (hs, gs) := (before + [a, b] + after, before + [b, a] + after);
    Fold31Suffix(before + [a, b], before + [b, a], after);
    Exchanged(before, a, b);
    if Ordered(hs) == Ordered(gs) {
      MixInjective(Fold31(hs), Fold31(gs), |hs|);
    }
  }

  lemma Exchanged(before: seq<Int32>, a: Int32, b: Int32)
    ensures Fold31(before + [a, b]) == Fold31(before + [b, a]) <==> (a - b) % 0x8000_0000 == 0
  {
    FoldTwo(before, a, b);
    FoldTwo(before, b, a);
    var f: int := Fold31(before);
    Congruent(961 * f + 31 * a + b, 961 * f + 31 * b + a);
    hide Narrow;
    ThirtyTimes(a - b);
  }

  lemma FoldTwo(before: seq<Int32>, a: Int32, b: Int32)
    ensures Fold31(before + [a, b]) == Narrow(961 * Fold31(before) + 31 * a + b)
  {
    hide Narrow;
    assert before + [a, b] == (before + [a]) + [b];
    Fold31Snoc(before, a);
    Fold31Snoc(before + [a], b);
    var f: int := Fold31(before);
    NarrowTimes(31 * f + a, b);
  }

  lemma ThirtyTimes(d: int)
    ensures (30 * d) % WORD == 0 <==> d % 0x8000_0000 == 0
  {
    if (30 * d) % WORD == 0 {
      var m := 30 * d / WORD;
      assert 15 * d == 0x8000_0000 * m;
      assert d == 0x8000_0000 * (1861152495 * m - 13 * d);
    }
  }

  /** Two sets, or two maps, of one size hash alike exactly when the wrapped sums of their members' hashes agree. */
  lemma SetsCollide(hs: seq<Int32>, gs: seq<Int32>)
    requires |hs| == |gs|
    ensures Unordered(hs) == Unordered(gs) <==> Sum(hs) == Sum(gs)
  {
    hide MixCollection;
    if Unordered(hs) == Unordered(gs) {
      MixInjective(Sum(hs), Sum(gs), |hs|);
    }
  }
}
