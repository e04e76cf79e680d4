/**
  Reference values of portable hashing (src/basilisp/lang/hashing.py:28-268):
  those of the program's own tests, and of its integers and decimals at the
  edges of their ranges.
*/
module HashValues {
  import opened Hashing
  import opened HashBits

  lemma StringOf(units: seq<bv16>, last: bv16)
    ensures JavaStringHash(units + [last]) == Narrow(31 * JavaStringHash(units) + last as int)
  {
    assert (units + [last])[..|units|] == units;
  }

  lemma MixK1OfThree()
    ensures MixK1(3) == 0x1467CF17
  {
    hide Xor, ShiftRight, RotateLeft, MixK1, MixH1, FMix;
    assert MixK1(3) == 0x1467CF17 by {
      MixK1Is(3, 0x65DA87F3, 0x43F9B2ED, 0x65DA87F3, 0x43F9B2ED);
    }
  }

  lemma MixH1OfThree()
    ensures MixH1(0, 0x1467CF17) == 0xC7C2D820
  {
    hide Xor, ShiftRight, RotateLeft, MixK1, MixH1, FMix;
    assert MixH1(0, 0x1467CF17) == 0xC7C2D820 by {
      MixH1Is(0, 0x1467CF17, 0x1467CF17, 0xF9E2E28C, 0, 0x1467CF17, 0x1467CF17, 0xF9E2E28C);
    }
  }

  lemma FinishedThree()
    ensures FMix(0xC7C2D820, 2) == 0x979BA52B
  {
    hide Xor, ShiftRight, RotateLeft, MixK1, MixH1, FMix;
    assert FMix(0xC7C2D820, 2) == 0x979BA52B by {
      XorIs(0xC7C2D820, 2, 0xC7C2D822, 0xC7C2D820, 2, 0xC7C2D822);
      Fold16(0xC7C2D822, 0xC7C21FE0, 0xC7C2D822, 0xC7C21FE0, 0xC7C2);
      Fold13(0x4DEA12A0, 0x4DE87DF0, 0x4DEA12A0, 0x4DE87DF0, 0x26F50);
      Fold16(0x979B32B0, 0x979BA52B, 0x979B32B0, 0x979BA52B, 0x979B);
      FMixIs(0xC7C2D820, 2, 0xC7C2D822, 0xC7C21FE0, 0x4DEA12A0, 0x4DE87DF0, 0x979B32B0);
    }
  }

  /** Mixing 3 for two members gives -1751407317. */
  lemma MixedCollection()
    ensures MixCollection(3, 2) == Narrow(-1751407317)
  {
    hide FMix, MixH1, MixK1;
    MixK1OfThree();
    MixH1OfThree();
    FinishedThree();
  }

  lemma MixK1OfOne()
    ensures MixK1(1) == 0xC3539A5D
  {
    hide Xor, ShiftRight, RotateLeft, MixK1, MixH1, FMix;
    assert MixK1(1) == 0xC3539A5D by {
      MixK1Is(1, 0xCC9E2D51, 0x16A8E64F, 0xCC9E2D51, 0x16A8E64F);
    }
  }

  lemma MixK1OfZero()
    ensures MixK1(0) == 0
  {
    hide Xor, ShiftRight, RotateLeft, MixK1, MixH1, FMix;
    assert MixK1(0) == 0 by {
      MixK1Is(0, 0, 0, 0, 0);
    }
  }

  lemma MixH1OfOne()
    ensures MixH1(0, 0xC3539A5D) == 0x26CF0576
  {
    hide Xor, ShiftRight, RotateLeft, MixK1, MixH1, FMix;
    assert MixH1(0, 0xC3539A5D) == 0x26CF0576 by {
      MixH1Is(0, 0xC3539A5D, 0xC3539A5D, 0x734BB86A, 0, 0xC3539A5D, 0xC3539A5D, 0x734BB86A);
    }
  }

  lemma MixH1Again()
    ensures MixH1(0x26CF0576, 0) == 0x49BE43A1
  {
    hide Xor, ShiftRight, RotateLeft, MixK1, MixH1, FMix;
    assert MixH1(0x26CF0576, 0) == 0x49BE43A1 by {
      MixH1Is(0x26CF0576, 0, 0x26CF0576, 0xE0AEC4D9, 0x26CF0576, 0, 0x26CF0576, 0xE0AEC4D9);
    }
  }

  lemma FinishedOne()
    ensures FMix(0x49BE43A1, 8) == 0x53075D44
  {
    hide Xor, ShiftRight, RotateLeft, MixK1, MixH1, FMix;
    assert FMix(0x49BE43A1, 8) == 0x53075D44 by {
      XorIs(0x49BE43A1, 8, 0x49BE43A9, 0x49BE43A1, 8, 0x49BE43A9);
      Fold16(0x49BE43A9, 0x49BE0A17, 0x49BE43A9, 0x49BE0A17, 0x49BE);
      Fold13(0xFC815D9D, 0xFC86B997, 0xFC815D9D, 0xFC86B997, 0x7E40A);
      Fold16(0x53070E43, 0x53075D44, 0x53070E43, 0x53075D44, 0x5307);
      FMixIs(0x49BE43A1, 8, 0x49BE43A9, 0x49BE0A17, 0xFC815D9D, 0xFC86B997, 0x53070E43);
    }
  }

  /** The hash of 1 is 1392991556. */
  lemma HashOfOne()
    ensures Hash(Int(1)) == 1392991556
  {
    hide FMix, MixH1, MixK1;
    MixK1OfOne();
    MixK1OfZero();
    MixH1OfOne();
    MixH1Again();
    FinishedOne();
  }

  lemma FinishedEmpty()
    ensures FMix(0x26CF0576, 0) == 0x87BE548A
  {
    hide Xor, ShiftRight, RotateLeft, MixK1, MixH1, FMix;
    assert FMix(0x26CF0576, 0) == 0x87BE548A by {
      XorIs(0x26CF0576, 0, 0x26CF0576, 0x26CF0576, 0, 0x26CF0576);
      Fold16(0x26CF0576, 0x26CF23B9, 0x26CF0576, 0x26CF23B9, 0x26CF);
      Fold13(0x9296E853, 0x92927CE4, 0x9296E853, 0x92927CE4, 0x494B7);
      Fold16(0x87BED334, 0x87BE548A, 0x87BED334, 0x87BE548A, 0x87BE);
      FMixIs(0x26CF0576, 0, 0x26CF0576, 0x26CF23B9, 0x9296E853, 0x92927CE4, 0x87BED334);
    }
  }

  /** The hash of an empty sequence is -2017569654. */
  lemma HashOfEmptySeq()
    ensures Hash(Seq([])) == Narrow(-2017569654)
  {
    hide FMix, MixH1, MixK1, Hash;
    HashOfCollection(Seq([]));
    MixK1OfOne();
    MixH1OfOne();
    FinishedEmpty();
  }

  lemma MixK1OfString()
    ensures MixK1(0x17862) == 0x1271608A
  {
    hide Xor, ShiftRight, RotateLeft, MixK1, MixH1, FMix;
    assert MixK1(0x17862) == 0x1271608A by {
      MixK1Is(0x17862, 0xA71C5102, 0x2881538E, 0xA71C5102, 0x2881538E);
    }
  }

  lemma MixH1OfString()
    ensures MixH1(0, 0x1271608A) == 0xC2AAB6EA
  {
    hide Xor, ShiftRight, RotateLeft, MixK1, MixH1, FMix;
    assert MixH1(0, 0x1271608A) == 0xC2AAB6EA by {
      MixH1Is(0, 0x1271608A, 0x1271608A, 0x2C11424E, 0, 0x1271608A, 0x1271608A, 0x2C11424E);
    }
  }

  lemma FinishedString()
    ensures FMix(0xC2AAB6EA, 4) == 74834163
  {
    hide Xor, ShiftRight, RotateLeft, MixK1, MixH1, FMix;
    assert FMix(0xC2AAB6EA, 4) == 0x475E0F3 by {
      XorIs(0xC2AAB6EA, 4, 0xC2AAB6EE, 0xC2AAB6EA, 4, 0xC2AAB6EE);
      Fold16(0xC2AAB6EE, 0xC2AA7444, 0xC2AAB6EE, 0xC2AA7444, 0xC2AA);
      Fold13(0xEB68406C, 0xEB6F1B2E, 0xEB68406C, 0xEB6F1B2E, 0x75B42);
      Fold16(0x475E486, 0x475E0F3, 0x475E486, 0x475E0F3, 0x475);
      FMixIs(0xC2AAB6EA, 4, 0xC2AAB6EE, 0xC2AA7444, 0xEB68406C, 0xEB6F1B2E, 0x475E486);
    }
  }

  /** The hash of the string abc is 74834163. */
  lemma HashOfString()
    ensures Hash(Str([97, 98, 99])) == 74834163
  {
    hide FMix, MixH1, MixK1, JavaStringHash;
    StringAbc();
    MixK1OfString();
    MixH1OfString();
    FinishedString();
  }

  lemma StringAbc()
    ensures JavaStringHash([97, 98, 99]) == 0x17862
  {
    hide JavaStringHash;
    var empty: seq<bv16> := [];
    var (a, b, c) := (97 as bv16, 98 as bv16, 99 as bv16);
    StringEmpty();
    StringOf(empty, a);
    StringOf([a], b);
    StringOf([a, b], c);
    assert empty + [a] == [a] && [a] + [b] == [a, b] && [a, b] + [c] == [a, b, c];
  }

  lemma StringEmpty()
    ensures JavaStringHash([]) == 0
  {
  }

  lemma StripOne()
    ensures Strip([1, 0, 0]) == [1] && Magnitude([1, 0, 0]) == 100 && Magnitude([1]) == 1
  {
    var digits: seq<Digit> := [1, 0, 0];
    var two: seq<Digit> := [1, 0];
    var one: seq<Digit> := [1];
    assert digits[..2] == two && two[..1] == one && one[..0] == [];
    assert Magnitude(one) == 1 && Strip(one) == one;
    assert Magnitude(two) == 10 && Strip(two) == one;
  }

  /** The hash of 1/2 is 3. */
  lemma HashOfHalf()
    ensures Hash(Ratio(1, 2)) == 3
  {
    assert WordsHash(1) == 1 && WordsHash(2) == 2;
    hide Xor, WordsHash;
    XorIs(1, 2, 3, 1, 2, 3);
  }

  /** The hash of 1.00 is 31. */
  lemma HashOfDecimalOne(v: Value)
    requires v == Dec(false, [1, 0, 0], -2)
    ensures Hash(v) == 31
  {
    assert WordsHash(1) == 1;
    hide Strip, Magnitude, WordsHash;
    StripOne();
    assert Magnitude(v.digits) == 100 && Strip(v.digits) == [1];
    assert Coefficient(false, [1]) == 1 && BigIntegerHash(1) == 1;
    assert DecimalHash(false, v.digits, -2) == Narrow(31 * 1 - (-2 + 3 - 1));
  }

  /** The hash of 1.5 is 466, of -1 as a decimal -31. */
  lemma HashOfDecimals(v: Value, w: Value)
    requires v == Dec(false, [1, 5], -1) && w == Dec(true, [1], 0)
    ensures Hash(v) == 466 && Hash(w) == Narrow(-31)
  {
    assert WordsHash(15) == 15 && WordsHash(1) == 1;
    assert v.digits[..1] == w.digits && w.digits[..0] == [];
    assert Magnitude(w.digits) == 1 && Magnitude(v.digits) == 15;
    assert Strip(v.digits) == v.digits && Strip(w.digits) == w.digits;
    hide Strip, Magnitude, WordsHash;
    assert Coefficient(true, w.digits) == -1 && BigIntegerHash(-1) == Narrow(-1) && BigIntegerHash(15) == 15;
    assert DecimalHash(false, v.digits, -1) == Narrow(31 * 15 + 1);
    assert DecimalHash(true, w.digits, 0) == Narrow(31 * Narrow(-1));
  }

  /** Integers beyond 64 bits hash by their words: 2^63 to -2^31, and 2^64 to 31 * 31. */
  lemma HashOfBigIntegers()
    ensures Hash(Int(0x8000_0000_0000_0000)) == Narrow(-0x8000_0000)
    ensures Hash(Int(0x1_0000_0000_0000_0000)) == 961
    ensures Hash(Int(-0x1_0000_0000_0000_0000)) == Narrow(-961)
  {
    assert WordsHash(1) == 1 && WordsHash(0x8000_0000) == 0x8000_0000;
    assert WordsHash(0x1_0000_0000) == 31;
    assert WordsHash(0x8000_0000_0000_0000) == Narrow(31 * 0x8000_0000);
    assert WordsHash(0x1_0000_0000_0000_0000) == 961;
    hide WordsHash;
  }

  /** The hashes of nothing, true and false. */
  lemma HashOfConstants()
    ensures Hash(Nil) == 0 && Hash(Bool(true)) == 1231 && Hash(Bool(false)) == 1237
  {
  }

  /** An entry of a map hashes as the sequence of its key and its value. */
  lemma EntryAsSequence(x: Entry)
    ensures EntryHash(x) == Hash(Seq([x.key, x.value]))
  {
    HashOfCollection(Seq([x.key, x.value]));
    hide Ordered;
    assert Hashes([x.key, x.value]) == [Hash(x.key), Hash(x.value)];
  }

  lemma MixK1OfTwo()
    ensures MixK1(2) == 0xEBDDB4BA
  {
    hide Xor, ShiftRight, RotateLeft, MixK1, MixH1, FMix;
    assert MixK1(2) == 0xEBDDB4BA by {
      MixK1Is(2, 0x993C5AA2, 0x2D514C9E, 0x993C5AA2, 0x2D514C9E);
    }
  }

  lemma MixH1OfTwo()
    ensures MixH1(0, 0xEBDDB4BA) == 0x77493ECB
  {
    hide Xor, ShiftRight, RotateLeft, MixK1, MixH1, FMix;
    assert MixH1(0, 0xEBDDB4BA) == 0x77493ECB by {
      MixH1Is(0, 0xEBDDB4BA, 0xEBDDB4BA, 0xB6975D7B, 0, 0xEBDDB4BA, 0xEBDDB4BA, 0xB6975D7B);
    }
  }

  lemma MixH1AgainOfTwo()
    ensures MixH1(0x77493ECB, 0) == 0xAD9395F1
  {
    hide Xor, ShiftRight, RotateLeft, MixK1, MixH1, FMix;
    assert MixH1(0x77493ECB, 0) == 0xAD9395F1 by {
      MixH1Is(0x77493ECB, 0, 0x77493ECB, 0x27D96EE9, 0x77493ECB, 0, 0x77493ECB, 0x27D96EE9);
    }
  }

  lemma FinishedTwo()
    ensures FMix(0xAD9395F1, 8) == 0xC61FA2F4
  {
    hide Xor, ShiftRight, RotateLeft, MixK1, MixH1, FMix;
    assert FMix(0xAD9395F1, 8) == 0xC61FA2F4 by {
      XorIs(0xAD9395F1, 8, 0xAD9395F9, 0xAD9395F1, 8, 0xAD9395F9);
      Fold16(0xAD9395F9, 0xAD93386A, 0xAD9395F9, 0xAD93386A, 0xAD93);
      Fold13(0x925A384E, 0x925EAA9F, 0x925A384E, 0x925EAA9F, 0x492D1);
      Fold16(0xC61F64EB, 0xC61FA2F4, 0xC61F64EB, 0xC61FA2F4, 0xC61F);
      FMixIs(0xAD9395F1, 8, 0xAD9395F9, 0xAD93386A, 0x925A384E, 0x925EAA9F, 0xC61F64EB);
    }
  }

  lemma HashOfTwo()
    ensures Hash(Int(2)) == 0xC61FA2F4
  {
    hide FMix, MixH1, MixK1;
    MixK1OfTwo();
    MixK1OfZero();
    MixH1OfTwo();
    MixH1AgainOfTwo();
    FinishedTwo();
  }

  lemma MixH1AgainOfThree()
    ensures MixH1(0xC7C2D820, 0) == 0xAD68E83C
  {
    hide Xor, ShiftRight, RotateLeft, MixK1, MixH1, FMix;
    assert MixH1(0xC7C2D820, 0) == 0xAD68E83C by {
      MixH1Is(0xC7C2D820, 0, 0xC7C2D820, 0x5B0418F8, 0xC7C2D820, 0, 0xC7C2D820, 0x5B0418F8);
    }
  }

  lemma FinishedLongThree()
    ensures FMix(0xAD68E83C, 8) == 0xA33B57B3
  {
    hide Xor, ShiftRight, RotateLeft, MixK1, MixH1, FMix;
    assert FMix(0xAD68E83C, 8) == 0xA33B57B3 by {
      XorIs(0xAD68E83C, 8, 0xAD68E834, 0xAD68E83C, 8, 0xAD68E834);
      Fold16(0xAD68E834, 0xAD68455C, 0xAD68E834, 0xAD68455C, 0xAD68);
      Fold13(0x38C39574, 0x38C25368, 0x38C39574, 0x38C25368, 0x1C61C);
      Fold16(0xA33BF488, 0xA33B57B3, 0xA33BF488, 0xA33B57B3, 0xA33B);
      FMixIs(0xAD68E83C, 8, 0xAD68E834, 0xAD68455C, 0x38C39574, 0x38C25368, 0xA33BF488);
    }
  }

  lemma HashOfThree()
    ensures Hash(Int(3)) == 0xA33B57B3
  {
    hide FMix, MixH1, MixK1;
    MixK1OfThree();
    MixK1OfZero();
    MixH1OfThree();
    MixH1AgainOfThree();
    FinishedLongThree();
  }

  lemma MixK1OfVector()
    ensures MixK1(0x4FB5A3E2) == 0xAB6A3933
  {
    hide Xor, ShiftRight, RotateLeft, MixK1, MixH1, FMix;
    assert MixK1(0x4FB5A3E2) == 0xAB6A3933 by {
      MixK1Is(0x4FB5A3E2, 0x63C39482, 0xCA4131E1, 0x63C39482, 0xCA4131E1);
    }
  }

  lemma MixH1OfVector()
    ensures MixH1(0, 0xAB6A3933) == 0x4A14B685
  {
    hide Xor, ShiftRight, RotateLeft, MixK1, MixH1, FMix;
    assert MixH1(0, 0xAB6A3933) == 0x4A14B685 by {
      MixH1Is(0, 0xAB6A3933, 0xAB6A3933, 0x4726756D, 0, 0xAB6A3933, 0xAB6A3933, 0x4726756D);
    }
  }

  lemma FinishedVector()
    ensures FMix(0x4A14B685, 3) == 0x2BE53695
  {
    hide Xor, ShiftRight, RotateLeft, MixK1, MixH1, FMix;
    assert FMix(0x4A14B685, 3) == 0x2BE53695 by {
      XorIs(0x4A14B685, 3, 0x4A14B686, 0x4A14B685, 3, 0x4A14B686);
      Fold16(0x4A14B686, 0x4A14FC92, 0x4A14B686, 0x4A14FC92, 0x4A14);
      Fold13(0x3A16C506, 0x3A1715B0, 0x3A16C506, 0x3A1715B0, 0x1D0B6);
      Fold16(0x2BE51D70, 0x2BE53695, 0x2BE51D70, 0x2BE53695, 0x2BE5);
      FMixIs(0x4A14B685, 3, 0x4A14B686, 0x4A14FC92, 0x3A16C506, 0x3A1715B0, 0x2BE51D70);
    }
  }

  lemma MixK1OfSet()
    ensures MixK1(0xBC6257EB) == 0x5A850B4A
  {
    hide Xor, ShiftRight, RotateLeft, MixK1, MixH1, FMix;
    assert MixK1(0xBC6257EB) == 0x5A850B4A by {
      MixK1Is(0xBC6257EB, 0x6B9C205B, 0x102DB5CE, 0x6B9C205B, 0x102DB5CE);
    }
  }

  lemma MixH1OfSet()
    ensures MixH1(0, 0x5A850B4A) == 0xD62E3F4
  {
    hide Xor, ShiftRight, RotateLeft, MixK1, MixH1, FMix;
    assert MixH1(0, 0x5A850B4A) == 0xD62E3F4 by {
      MixH1Is(0, 0x5A850B4A, 0x5A850B4A, 0xA1694B50, 0, 0x5A850B4A, 0x5A850B4A, 0xA1694B50);
    }
  }

  lemma FinishedSet()
    ensures FMix(0xD62E3F4, 3) == 0x1A2C0EB5
  {
    hide Xor, ShiftRight, RotateLeft, MixK1, MixH1, FMix;
    assert FMix(0xD62E3F4, 3) == 0x1A2C0EB5 by {
      XorIs(0xD62E3F4, 3, 0xD62E3F7, 0xD62E3F4, 3, 0xD62E3F7);
      Fold16(0xD62E3F7, 0xD62EE95, 0xD62E3F7, 0xD62EE95, 0xD62);
      Fold13(0x14624A47, 0x1462E955, 0x14624A47, 0x1462E955, 0xA312);
      Fold16(0x1A2C1499, 0x1A2C0EB5, 0x1A2C1499, 0x1A2C0EB5, 0x1A2C);
      FMixIs(0xD62E3F4, 3, 0xD62E3F7, 0xD62EE95, 0x14624A47, 0x1462E955, 0x1A2C1499);
    }
  }

  /** The hashes of the sequence and of the set of 1, 2 and 3 are 736442005 and 439094965. */
  lemma HashOfOneTwoThree()
    ensures Hash(Seq([Int(1), Int(2), Int(3)])) == 736442005
    ensures Hash(Set([Int(1), Int(2), Int(3)])) == 439094965
  {
    hide FMix, MixH1, MixK1, Hash, Fold31, Sum;
    var xs := [Int(1), Int(2), Int(3)];
    HashOfCollection(Seq(xs));
    HashOfCollection(Set(xs));
    HashOfOne();
    HashOfTwo();
    HashOfThree();
    assert Hashes(xs) == [0x53075D44, 0xC61FA2F4, 0xA33B57B3];
    FoldsOfThree(Hashes(xs));
    MixK1OfVector();
    MixH1OfVector();
    FinishedVector();
    MixK1OfSet();
    MixH1OfSet();
    FinishedSet();
  }

  lemma FoldsOfThree(hs: seq<Int32>)
    requires hs == [0x53075D44, 0xC61FA2F4, 0xA33B57B3]
    ensures Fold31(hs) == 0x4FB5A3E2 && Sum(hs) == 0xBC6257EB
  {
    var (two, one) := (hs[..2], hs[..1]);
    assert two[..1] == one && one[..0] == [];
    assert Fold31(one) == 0x53075D63 && Fold31(two) == 0xD403F1F1;
    assert Sum(one) == 0x53075D44 && Sum(two) == 0x19270038;
  }
}
