/**
  Portable hashing and language equality
  (src/basilisp/lang/hashing.py:28-143, 191-268; src/basilisp/lang/equality.py:20-48).

  The program narrows every intermediate result to a JVM int. Sets and maps are
  modelled as the sequences their iteration yields, so one value may occur with
  its members in any order.
*/
module Hashing {
  import opened Decimals

  // ------------------------------------------------------------------
  // Values and their equality

  type Digit = d: int | 0 <= d < 10

  datatype Entry = Entry(key: Value, value: Value)

  datatype Value =
    | Nil
    | Bool(b: bool)
    | Int(i: int)
    | Ratio(numerator: int, denominator: int)
    | Dec(negative: bool, digits: seq<Digit>, exponent: int)
    | Str(units: seq<bv16>)
    | Seq(items: seq<Value>)
    | Set(members: seq<Value>)
    | Map(entries: seq<Entry>)

  datatype Family = Integer | Rational | Decimal

  datatype FamilyOf = NotNumeric | In(family: Family)

  /** `numeric_family`. */
  function NumericFamily(v: Value): FamilyOf {
    match v
    case Int(_) => In(Integer)
    case Ratio(_, d) => if d == 1 then In(Integer) else In(Rational)
    case Dec(_, _, _) => In(Decimal)
    case _ => NotNumeric
  }

  /** The number written by the digits. */
  function Magnitude(digits: seq<Digit>): (n: nat) {
    if digits == [] then 0 else 10 * Magnitude(digits[..|digits| - 1]) + digits[|digits| - 1]
  }

  function Coefficient(negative: bool, digits: seq<Digit>): int {
    var m: int := Magnitude(digits);
    if negative then -m else m
  }

  /** Equality inside one numeric family. */
  predicate NumberEquiv(a: Value, b: Value)
    requires NumericFamily(a).In? && NumericFamily(a) == NumericFamily(b)
  {
    match NumericFamily(a).family
    case Integer => IntOf(a) == IntOf(b)
    case Rational => a == b
    case Decimal =>
      SameNumber(Coefficient(a.negative, a.digits), a.exponent, Coefficient(b.negative, b.digits), b.exponent)
  }

  function IntOf(v: Value): int
    requires NumericFamily(v) == In(Integer)
  {
    if v.Int? then v.i else v.numerator
  }

  /** `numeric_equiv` with the equality of the collections. */
  predicate Equiv(a: Value, b: Value)
    decreases a, 0
  {
    if NumericFamily(a) != NumericFamily(b) then false
    else if NumericFamily(a).In? then NumberEquiv(a, b)
    else
      match (a, b)
      case (Seq(xs), Seq(ys)) => |xs| == |ys| && forall i :: 0 <= i < |xs| ==> Equiv(xs[i], ys[i])
      case (Set(xs), Set(ys)) =>
        |xs| == |ys| && forall i :: 0 <= i < |xs| ==> Member(xs[i], ys)
      case (Map(xs), Map(ys)) =>
        |xs| == |ys| && forall i :: 0 <= i < |xs| ==> HasEntry(xs[i], ys)
      case _ => a == b
  }

  predicate EntryEquiv(x: Entry, y: Entry)
    decreases x, 0
  {
    Equiv(x.key, y.key) && Equiv(x.value, y.value)
  }

  /** `x in ys` of a set, and the lookup of a key with an equal value of a map. */
  predicate Member(x: Value, ys: seq<Value>)
    decreases x, 1
  {
    exists j :: 0 <= j < |ys| && Equiv(x, ys[j])
  }

  predicate HasEntry(x: Entry, ys: seq<Entry>)
    decreases x, 1
  {
    exists j :: 0 <= j < |ys| && EntryEquiv(x, ys[j])
  }

  /** A value the program can build: positive denominators, decimals with digits, sets and maps with distinct keys. */
  predicate Wf(v: Value)
    decreases v
  {
    match v
    case Ratio(_, d) => d >= 1
    case Dec(_, digits, _) => digits != []
    case Seq(xs) => forall i :: 0 <= i < |xs| ==> Wf(xs[i])
    case Set(xs) =>
      && (forall i :: 0 <= i < |xs| ==> Wf(xs[i]))
      && (forall i, j :: 0 <= i < j < |xs| ==> !Equiv(xs[i], xs[j]))
    case Map(xs) =>
      && (forall i :: 0 <= i < |xs| ==> Wf(xs[i].key) && Wf(xs[i].value))
      && (forall i, j :: 0 <= i < j < |xs| ==> !Equiv(xs[i].key, xs[j].key))
    case _ => true
  }

  // ------------------------------------------------------------------
  // 32-bit mixing

  const WORD := 0x1_0000_0000

  /** A JVM int, by its 32 bits read as an unsigned number. */
  type Int32 = n: int | 0 <= n < WORD

  /** `_int32` and `_uint32`. */
  function Narrow(n: int): Int32 { n % WORD }

  function Xor(x: Int32, y: Int32): Int32 { Narrow(((x as bv32) ^ (y as bv32)) as int) }

  function ShiftRight(x: Int32, amount: nat): Int32
    requires amount < 32
  {
    ((x as bv32) >> amount) as int
  }

  function RotateLeft(x: Int32, amount: nat): Int32
    requires 0 < amount < 32
  {
    (((x as bv32) << amount) | ((x as bv32) >> (32 - amount))) as int
  }

  function MixK1(x: Int32): Int32 { Narrow(RotateLeft(Narrow(x * 0xCC9E2D51), 15) * 0x1B873593) }

  function MixH1(h: Int32, k: Int32): Int32 { Narrow(RotateLeft(Xor(h, k), 13) * 5 + 0xE6546B64) }

  function FMix(h: Int32, length: nat): Int32 {
    var h1 := Xor(h, Narrow(length));
    var h2 := Narrow(Xor(h1, ShiftRight(h1, 16)) * 0x85EBCA6B);
    var h3 := Narrow(Xor(h2, ShiftRight(h2, 13)) * 0xC2B2AE35);
    Xor(h3, ShiftRight(h3, 16))
  }

  /** `mix_collection_hash`. */
  function MixCollection(h: Int32, count: nat): Int32 { FMix(MixH1(0, MixK1(h)), count) }

  function HashLong(n: int): Int32 {
    if n == 0 then 0
    else
      var u := n % (WORD * WORD);
      FMix(MixH1(MixH1(0, MixK1(Narrow(u))), MixK1(Narrow(u / WORD))), 8)
  }

  /** 31-based hash of the 32-bit words of a magnitude, most significant first. */
  function WordsHash(magnitude: nat): Int32 {
    if magnitude == 0 then 0 else Narrow(31 * WordsHash(magnitude / WORD) + magnitude % WORD)
  }

  /** `_big_integer_hash`. */
  function BigIntegerHash(n: int): Int32 {
    if n >= 0 then WordsHash(n)
    else
      var h: int := WordsHash(-n);
      Narrow(-h)
  }

  function IntegerHash(n: int): Int32 {
    if -0x8000_0000_0000_0000 <= n < 0x8000_0000_0000_0000 then HashLong(n) else BigIntegerHash(n)
  }

  function JavaStringHash(units: seq<bv16>): Int32 {
    if units == [] then 0 else Narrow(31 * JavaStringHash(units[..|units| - 1]) + units[|units| - 1] as int)
  }

  function HashInt(h: Int32): Int32 { if h == 0 then 0 else FMix(MixH1(0, MixK1(h)), 4) }

  /** Digits without their trailing zeros, but at least one. */
  function Strip(digits: seq<Digit>): seq<Digit> {
    if |digits| > 1 && digits[|digits| - 1] == 0 then Strip(digits[..|digits| - 1]) else digits
  }

  /** `_decimal_hash` of a finite decimal. */
  function DecimalHash(negative: bool, digits: seq<Digit>, exponent: int): Int32 {
    if Magnitude(digits) == 0 then 0
    else
      var stripped := Strip(digits);
      Narrow(31 * BigIntegerHash(Coefficient(negative, stripped)) - (exponent + |digits| - |stripped|))
  }

  function Fold31(hs: seq<Int32>): Int32 {
    if hs == [] then 1 else Narrow(31 * Fold31(hs[..|hs| - 1]) + hs[|hs| - 1])
  }

  function Add(a: Int32, b: Int32): Int32 { Narrow(a + b) }

  function Sum(hs: seq<Int32>): Int32 {
    if hs == [] then 0 else Add(Sum(hs[..|hs| - 1]), hs[|hs| - 1])
  }

  /** `hash_ordered` and `hash_unordered` of the members' hashes. */
  function Ordered(hs: seq<Int32>): Int32 { MixCollection(Fold31(hs), |hs|) }

  function Unordered(hs: seq<Int32>): Int32 { MixCollection(Sum(hs), |hs|) }

  /** `clojure_hash`. */
  function Hash(v: Value): Int32
    decreases v, 0
  {
    match v
    case Nil => 0
    case Bool(b) => if b then 1231 else 1237
    case Int(i) => IntegerHash(i)
    case Ratio(n, d) => if d == 1 then IntegerHash(n) else Xor(BigIntegerHash(n), BigIntegerHash(d))
    case Dec(negative, digits, exponent) => DecimalHash(negative, digits, exponent)
    case Str(units) => HashInt(JavaStringHash(units))
    case Seq(xs) => Ordered(seq(|xs|, i requires 0 <= i < |xs| => Hash(xs[i])))
    case Set(xs) => Unordered(seq(|xs|, i requires 0 <= i < |xs| => Hash(xs[i])))
    case Map(xs) => Unordered(seq(|xs|, i requires 0 <= i < |xs| => EntryHash(xs[i])))
  }

  function EntryHash(x: Entry): Int32
    decreases x, 0
  {
    Ordered([Hash(x.key), Hash(x.value)])
  }

  function Hashes(xs: seq<Value>): seq<Int32> { seq(|xs|, i requires 0 <= i < |xs| => Hash(xs[i])) }

  function EntryHashes(xs: seq<Entry>): seq<Int32> { seq(|xs|, i requires 0 <= i < |xs| => EntryHash(xs[i])) }

  lemma HashOfCollection(v: Value)
    ensures v.Seq? ==> Hash(v) == Ordered(Hashes(v.items))
    ensures v.Set? ==> Hash(v) == Unordered(Hashes(v.members))
    ensures v.Map? ==> Hash(v) == Unordered(EntryHashes(v.entries))
  {
    hide Ordered, Unordered;
    match v
    case Seq(xs) => assert Hashes(xs) == seq(|xs|, i requires 0 <= i < |xs| => Hash(xs[i]));
    case Set(xs) => assert Hashes(xs) == seq(|xs|, i requires 0 <= i < |xs| => Hash(xs[i]));
    case Map(xs) => assert EntryHashes(xs) == seq(|xs|, i requires 0 <= i < |xs| => EntryHash(xs[i]));
    case _ =>
  }

  // ------------------------------------------------------------------
  // Decimals: equal numbers have one canonical coefficient and scale

  lemma {:induction false} StripValue(digits: seq<Digit>)
    requires digits != []
    ensures 1 <= |Strip(digits)| <= |digits|
    ensures Magnitude(digits) == Magnitude(Strip(digits)) * Pow10(|digits| - |Strip(digits)|)
    ensures Magnitude(digits) != 0 ==> Magnitude(Strip(digits)) % 10 != 0
    decreases |digits|
  {
    hide Pow10;
    var (init, last) := (digits[..|digits| - 1], digits[|digits| - 1]);
    assert Magnitude(digits) == 10 * Magnitude(init) + last;
    if |digits| > 1 && last == 0 {
      StripValue(init);
      assert Strip(digits) == Strip(init);
      Tens(Magnitude(Strip(init)), |digits| - |Strip(init)|);
    } else {
      Tens(Magnitude(digits), 0);
      if |digits| == 1 {
        assert init == [];
      }
    }
  }

  lemma Negated(m: int, p: int)
    ensures (-m) * p == -(m * p)
  {
  }

  lemma SignedStrip(negative: bool, digits: seq<Digit>)
    requires digits != [] && Magnitude(digits) != 0
    ensures |Strip(digits)| <= |digits|
    ensures Coefficient(negative, digits) == Coefficient(negative, Strip(digits)) * Pow10(|digits| - |Strip(digits)|)
    ensures Coefficient(negative, Strip(digits)) % 10 != 0
  {
    hide Pow10, Magnitude, Strip;
    StripValue(digits);
    Negated(Magnitude(Strip(digits)), Pow10(|digits| - |Strip(digits)|));
  }

  lemma ProductZero(c: int, p: int)
    requires p >= 1
    ensures c * p == 0 <==> c == 0
  {
  }

  /** 1.0 and 1.00 hash alike, and so do all writings of any other number. */
  lemma DecimalHashCanonical(negative: bool, digits: seq<Digit>, e: int, negative1: bool, digits1: seq<Digit>, e1: int)
    requires digits != [] && digits1 != []
    requires SameNumber(Coefficient(negative, digits), e, Coefficient(negative1, digits1), e1)
    ensures DecimalHash(negative, digits, e) == DecimalHash(negative1, digits1, e1)
  {
    hide Pow10, Magnitude, Strip, WordsHash;
    var (c, c1) := (Coefficient(negative, digits), Coefficient(negative1, digits1));
    if e >= e1 {
      ProductZero(c, Pow10(e - e1));
    } else {
      ProductZero(c1, Pow10(e1 - e));
    }
    if Magnitude(digits) != 0 {
      SignedStrip(negative, digits);
      SignedStrip(negative1, digits1);
      Canonical(Coefficient(negative, Strip(digits)), |digits| - |Strip(digits)|, e,
        Coefficient(negative1, Strip(digits1)), |digits1| - |Strip(digits1)|, e1);
    }
  }

  // ------------------------------------------------------------------
  // Members in any order

  /** An injective choice of partners, by index. */
  ghost predicate Injective(f: seq<nat>) {
    && (forall i :: 0 <= i < |f| ==> f[i] < |f|)
    && (forall i, j :: 0 <= i < j < |f| ==> f[i] != f[j])
  }

  function Without<T>(s: seq<T>, k: nat): seq<T>
    requires k < |s|
  {
    s[..k] + s[k + 1..]
  }

  function Lower(n: nat, k: nat): nat { if n > k then n - 1 else n }

  lemma SumLast(hs: seq<Int32>)
    requires hs != []
    ensures Sum(hs) == Add(Sum(hs[..|hs| - 1]), hs[|hs| - 1])
  {
  }

  lemma {:induction false} SumWithout(hs: seq<Int32>, k: nat)
    requires k < |hs|
    ensures Sum(hs) == Add(Sum(Without(hs, k)), hs[k])
  {
    hide Sum, Add;
    var last := |hs| - 1;
    SumLast(hs);
    if k < last {
      SumWithout(hs[..last], k);
      assert Without(hs, k)[..last - 1] == Without(hs[..last], k);
      assert Without(hs, k)[last - 1] == hs[last];
      SumLast(Without(hs, k));
      Regroup(Sum(Without(hs[..last], k)), hs[k], hs[last]);
    } else {
      assert Without(hs, k) == hs[..last];
    }
  }

  lemma NarrowAgain(x: int, c: int)
    ensures Narrow(Narrow(x) + c) == Narrow(x + c)
  {
    var (q, r) := (x / WORD, x % WORD);
    var (q1, r1) := ((r + c) / WORD, (r + c) % WORD);
    assert x + c == (q + q1) * WORD + r1;
  }

  lemma Regroup(a: Int32, b: Int32, c: Int32)
    ensures Add(Add(a, b), c) == Add(Add(a, c), b)
  {
    NarrowAgain(a + b, c);
    NarrowAgain(a + c, b);
    assert a + b + c == a + c + b;
    hide Narrow;
  }

  /** Wrapped sums do not depend on the order of their terms. */
  lemma {:induction false} SumPermuted(hs: seq<Int32>, gs: seq<Int32>, f: seq<nat>)
    requires |hs| == |gs| == |f| && Injective(f)
    requires forall i :: 0 <= i < |f| ==> hs[i] == gs[f[i]]
    ensures Sum(hs) == Sum(gs)
    decreases |f|
  {
    hide Sum, Add;
    if f == [] {
      assert hs == gs;
    } else {
      var last := |f| - 1;
      var k := f[last];
      SumLast(hs);
      var f1 := seq(last, i requires 0 <= i < last => Lower(f[i], k));
      var gs1 := Without(gs, k);
      forall i | 0 <= i < last ensures f1[i] < last && hs[..last][i] == gs1[f1[i]] {
        assert f[i] != k;
      }
      assert Injective(f1);
      SumPermuted(hs[..last], gs1, f1);
      SumWithout(gs, k);
    }
  }

  /** As many distinct partners as there are places leave no place empty. */
  lemma {:induction false} Onto(f: seq<nat>, j: nat)
    requires Injective(f) && j < |f|
    ensures exists i :: 0 <= i < |f| && f[i] == j
    decreases |f|
  {
    var last := |f| - 1;
    var k := f[last];
    if k != j {
      var f1 := seq(last, i requires 0 <= i < last => Lower(f[i], k));
      forall i | 0 <= i < last ensures f1[i] < last {
        assert f[i] != k;
      }
      Onto(f1, Lower(j, k));
      var i :| 0 <= i < |f1| && f1[i] == Lower(j, k);
      assert f[i] != k;
    }
  }

  lemma {:induction false} Reflexive(v: Value)
    ensures Equiv(v, v)
    decreases v
  {
    match v
    case Dec(_, _, _) => assert Pow10(0) == 1;
    case Seq(xs) =>
      forall i | 0 <= i < |xs| ensures Equiv(xs[i], xs[i]) {
        Reflexive(xs[i]);
      }
    case Set(xs) =>
      forall i | 0 <= i < |xs| ensures Member(xs[i], xs) {
        Reflexive(xs[i]);
      }
    case Map(xs) =>
      forall i | 0 <= i < |xs| ensures HasEntry(xs[i], xs) {
        Reflexive(xs[i].key);
        Reflexive(xs[i].value);
        assert EntryEquiv(xs[i], xs[i]);
      }
    case _ =>
  }

  lemma ChooseMembers(xs: seq<Value>, ys: seq<Value>) returns (f: seq<nat>)
    requires forall i :: 0 <= i < |xs| ==> Member(xs[i], ys)
    ensures |f| == |xs| && forall i :: 0 <= i < |xs| ==> f[i] < |ys| && Equiv(xs[i], ys[f[i]])
  {
    hide Equiv;
    f := [];
    while |f| < |xs|
      invariant |f| <= |xs| && forall i :: 0 <= i < |f| ==> f[i] < |ys| && Equiv(xs[i], ys[f[i]])
    {
      var j :| 0 <= j < |ys| && Equiv(xs[|f|], ys[j]);
      f := f + [j];
    }
  }

  /** Equal sets: every member of the first has its own partner in the second. */
  lemma SetPartners(xs: seq<Value>, ys: seq<Value>) returns (f: seq<nat>)
    requires Wf(Set(xs)) && Wf(Set(ys)) && Equiv(Set(xs), Set(ys))
    ensures |f| == |xs| && Injective(f) && forall i :: 0 <= i < |xs| ==> Equiv(xs[i], ys[f[i]])
    decreases Set(ys), 0
  {
    f := ChooseMembers(xs, ys);
    hide Equiv;
    forall i, k | 0 <= i < k < |xs| ensures f[i] != f[k] {
      if f[i] == f[k] {
        Euclid(xs[i], xs[k], ys[f[i]]);
      }
    }
  }

  lemma ChooseEntries(xs: seq<Entry>, ys: seq<Entry>) returns (f: seq<nat>)
    requires forall i :: 0 <= i < |xs| ==> HasEntry(xs[i], ys)
    ensures |f| == |xs| && forall i :: 0 <= i < |xs| ==> f[i] < |ys| && EntryEquiv(xs[i], ys[f[i]])
  {
    hide EntryEquiv;
    f := [];
    while |f| < |xs|
      invariant |f| <= |xs| && forall i :: 0 <= i < |f| ==> f[i] < |ys| && EntryEquiv(xs[i], ys[f[i]])
    {
      var j :| 0 <= j < |ys| && EntryEquiv(xs[|f|], ys[j]);
      f := f + [j];
    }
  }

  lemma MapPartners(xs: seq<Entry>, ys: seq<Entry>) returns (f: seq<nat>)
    requires Wf(Map(xs)) && Wf(Map(ys)) && Equiv(Map(xs), Map(ys))
    ensures |f| == |xs| && Injective(f) && forall i :: 0 <= i < |xs| ==> EntryEquiv(xs[i], ys[f[i]])
    decreases Map(ys), 0
  {
    f := ChooseEntries(xs, ys);
    forall i, k | 0 <= i < k < |xs| ensures f[i] != f[k] {
      assert EntryEquiv(xs[i], ys[f[i]]) && EntryEquiv(xs[k], ys[f[k]]);
      hide Equiv;
      if f[i] == f[k] {
        Euclid(xs[i].key, xs[k].key, ys[f[i]].key);
      }
    }
  }

  /** A member of a set equal to `zs`, found again in one whose partners in `zs` are known. */
  lemma MemberEuclid(x: Value, ys: seq<Value>, zs: seq<Value>, f: seq<nat>)
    requires Wf(x) && (forall v :: v in ys + zs ==> Wf(v)) && Member(x, zs)
    requires |f| == |ys| == |zs| && Injective(f)
    requires forall i :: 0 <= i < |ys| ==> f[i] < |zs| && Equiv(ys[i], zs[f[i]])
    ensures Member(x, ys)
    decreases Set(zs), 0
  {
    hide Equiv, Wf;
    var j :| 0 <= j < |zs| && Equiv(x, zs[j]);
    Onto(f, j);
    var k :| 0 <= k < |f| && f[k] == j;
    assert ys[k] in ys + zs && zs[j] in ys + zs;
    Euclid(x, ys[k], zs[j]);
  }

  lemma EntryEuclid(x: Entry, ys: seq<Entry>, zs: seq<Entry>, f: seq<nat>)
    requires Wf(x.key) && Wf(x.value) && (forall e :: e in ys + zs ==> Wf(e.key) && Wf(e.value)) && HasEntry(x, zs)
    requires |f| == |ys| == |zs| && Injective(f)
    requires forall i :: 0 <= i < |ys| ==> f[i] < |zs| && EntryEquiv(ys[i], zs[f[i]])
    ensures HasEntry(x, ys)
    decreases Map(zs), 0
  {
    hide Equiv, Wf;
    var j :| 0 <= j < |zs| && EntryEquiv(x, zs[j]);
    Onto(f, j);
    var k :| 0 <= k < |f| && f[k] == j;
    assert ys[k] in ys + zs && zs[j] in ys + zs;
    Euclid(x.key, ys[k].key, zs[j].key);
    Euclid(x.value, ys[k].value, zs[j].value);
    assert EntryEquiv(x, ys[k]);
  }

  lemma SetEuclid(xs: seq<Value>, ys: seq<Value>, zs: seq<Value>)
    requires Wf(Set(xs)) && Wf(Set(ys)) && Wf(Set(zs)) && Equiv(Set(xs), Set(zs)) && Equiv(Set(ys), Set(zs))
    ensures Equiv(Set(xs), Set(ys))
    decreases Set(zs), 1
  {
    var f := SetPartners(ys, zs);
    forall i | 0 <= i < |xs| ensures Member(xs[i], ys) {
      assert Member(xs[i], zs);
      MemberEuclid(xs[i], ys, zs, f);
    }
  }

  lemma MapEuclid(xs: seq<Entry>, ys: seq<Entry>, zs: seq<Entry>)
    requires Wf(Map(xs)) && Wf(Map(ys)) && Wf(Map(zs)) && Equiv(Map(xs), Map(zs)) && Equiv(Map(ys), Map(zs))
    ensures Equiv(Map(xs), Map(ys))
    decreases Map(zs), 1
  {
    var f := MapPartners(ys, zs);
    forall i | 0 <= i < |xs| ensures HasEntry(xs[i], ys) {
      assert HasEntry(xs[i], zs);
      EntryEuclid(xs[i], ys, zs, f);
    }
  }

  /** Values equal to a third are equal to each other. */
  lemma {:induction false} Euclid(x: Value, y: Value, z: Value)
    requires Wf(x) && Wf(y) && Wf(z) && Equiv(x, z) && Equiv(y, z)
    ensures Equiv(x, y)
    decreases z, 2
  {
    match z
    case Dec(_, _, _) =>
      SameNumberEuclid(Coefficient(x.negative, x.digits), x.exponent, Coefficient(y.negative, y.digits), y.exponent,
        Coefficient(z.negative, z.digits), z.exponent);
    case Seq(zs) =>
      forall i | 0 <= i < |zs| ensures Equiv(x.items[i], y.items[i]) {
        Euclid(x.items[i], y.items[i], zs[i]);
      }
    case Set(zs) => SetEuclid(x.members, y.members, zs);
    case Map(zs) => MapEuclid(x.entries, y.entries, zs);
    case _ =>
  }

  /** Equality is symmetric and transitive, although the test only looks for one side's members in the other. */
  lemma Equivalence(x: Value, y: Value, z: Value)
    requires Wf(x) && Wf(y) && Wf(z)
    ensures Equiv(x, y) ==> Equiv(y, x)
    ensures Equiv(x, y) && Equiv(y, z) ==> Equiv(x, z)
  {
    Reflexive(y);
    Reflexive(z);
    if Equiv(x, y) {
      Euclid(y, x, y);
      if Equiv(y, z) {
        Euclid(z, y, z);
        Euclid(x, z, y);
      }
    }
  }

  /** Sets with the same members, and maps with the same entries, in whatever order, are equal. */
  lemma AnyOrder(xs: seq<Value>, ys: seq<Value>, es: seq<Entry>, ds: seq<Entry>)
    requires |xs| == |ys| && |es| == |ds|
    requires (forall x :: x in xs ==> x in ys) && forall e :: e in es ==> e in ds
    ensures Equiv(Set(xs), Set(ys)) && Equiv(Map(es), Map(ds))
  {
    forall i | 0 <= i < |xs| ensures Member(xs[i], ys) {
      assert xs[i] in xs;
      var j :| 0 <= j < |ys| && ys[j] == xs[i];
      Reflexive(xs[i]);
    }
    forall i | 0 <= i < |es| ensures HasEntry(es[i], ds) {
      assert es[i] in es;
      var j :| 0 <= j < |ds| && ds[j] == es[i];
      Reflexive(es[i].key);
      Reflexive(es[i].value);
      assert EntryEquiv(es[i], ds[j]);
    }
  }

  /** Numbers are equal only within a family: 1 is 1/1 but not 1.0, which is 1.00. */
  lemma NumbersEqual(n: int, x: Value, y: Value)
    requires x == Dec(false, [1, 0], -1) && y == Dec(false, [1, 0, 0], -2)
    ensures Equiv(Int(n), Ratio(n, 1)) && !Equiv(Int(1), x) && !Equiv(Ratio(1, 1), x) && Equiv(x, y)
  {
    assert y.digits[..2] == x.digits && x.digits[..1] == [1] && [1][..0] == [];
    var one: seq<Digit> := [1];
    assert Magnitude(one) == 1 && Magnitude(x.digits) == 10 && Magnitude(y.digits) == 100;
    assert Pow10(1) == 10;
  }

  /** Equal values hash equally, however deeply nested and in whatever order sets and maps are iterated. */
  lemma {:induction false} EqualHash(a: Value, b: Value)
    requires Wf(a) && Wf(b) && Equiv(a, b)
    ensures Hash(a) == Hash(b)
    decreases a
  {
    hide IntegerHash, BigIntegerHash, Xor, Ordered, Unordered, DecimalHash, SameNumber;
    HashOfCollection(a);
    HashOfCollection(b);
    match a
    case Dec(negative, digits, e) => DecimalHashCanonical(negative, digits, e, b.negative, b.digits, b.exponent);
    case Seq(xs) =>
      var ys := b.items;
      forall i | 0 <= i < |xs| ensures Hash(xs[i]) == Hash(ys[i]) {
        EqualHash(xs[i], ys[i]);
      }
      assert Hashes(xs) == Hashes(ys);
    case Set(xs) =>
      var ys := b.members;
      var f := SetPartners(xs, ys);
      forall i | 0 <= i < |xs| ensures Hash(xs[i]) == Hash(ys[f[i]]) {
        EqualHash(xs[i], ys[f[i]]);
      }
      SameUnordered(Hashes(xs), Hashes(ys), f);
    case Map(xs) =>
      var ys := b.entries;
      var f := MapPartners(xs, ys);
      forall i | 0 <= i < |xs| ensures EntryHash(xs[i]) == EntryHash(ys[f[i]]) {
        EqualHash(xs[i].key, ys[f[i]].key);
        EqualHash(xs[i].value, ys[f[i]].value);
      }
      SameUnordered(EntryHashes(xs), EntryHashes(ys), f);
    case _ =>
  }

  lemma SameUnordered(hs: seq<Int32>, gs: seq<Int32>, f: seq<nat>)
    requires |hs| == |gs| == |f| && Injective(f)
    requires forall i :: 0 <= i < |f| ==> hs[i] == gs[f[i]]
    ensures Unordered(hs) == Unordered(gs)
  {
    SumPermuted(hs, gs, f);
  }

  // ------------------------------------------------------------------
  // The loops of the program

  /** `hash_ordered`. */
  method HashOrdered(values: seq<Value>) returns (h: Int32)
    ensures h == Hash(Seq(values))
  {
    hide Narrow, Hash, MixCollection;
    h := 1;
    var count := 0;
    while count < |values|
      invariant 0 <= count <= |values|
      invariant h == Fold31(Hashes(values)[..count])
    {
      assert Hashes(values)[..count + 1][..count] == Hashes(values)[..count];
      h := Narrow(31 * h + Hash(values[count]));
      count := count + 1;
    }
    assert Hashes(values)[..count] == Hashes(values);
    HashOfCollection(Seq(values));
    h := MixCollection(h, count);
  }

  /** `hash_unordered`, over a set's members. */
  method HashUnordered(values: seq<Value>) returns (h: Int32)
    ensures h == Hash(Set(values))
  {
    hide Narrow, Hash, MixCollection;
    h := 0;
    var count := 0;
    while count < |values|
      invariant 0 <= count <= |values|
      invariant h == Sum(Hashes(values)[..count])
    {
      assert Hashes(values)[..count + 1][..count] == Hashes(values)[..count];
      h := Narrow(h + Hash(values[count]));
      count := count + 1;
    }
    assert Hashes(values)[..count] == Hashes(values);
    HashOfCollection(Set(values));
    h := MixCollection(h, count);
  }

  /** The map branch of `clojure_hash`. */
  method HashMapping(entries: seq<Entry>) returns (h: Int32)
    ensures h == Hash(Map(entries))
  {
    hide Narrow, Hash, MixCollection, EntryHash;
    h := 0;
    var count := 0;
    while count < |entries|
      invariant 0 <= count <= |entries|
      invariant h == Sum(EntryHashes(entries)[..count])
    {
      assert EntryHashes(entries)[..count + 1][..count] == EntryHashes(entries)[..count];
      h := Narrow(h + EntryHash(entries[count]));
      count := count + 1;
    }
    assert EntryHashes(entries)[..count] == EntryHashes(entries);
    HashOfCollection(Map(entries));
    h := MixCollection(h, count);
  }

  /** `_big_integer_hash`: split the magnitude into words, then fold them from the most significant down. */
  method BigIntegerHashLoop(value: int) returns (h: Int32)
    ensures h == BigIntegerHash(value)
  {
    hide Narrow;
    if value == 0 {
      return 0;
    }
    var magnitude: nat := if value < 0 then -value else value;
    ghost var start := magnitude;
    var words: seq<Int32> := [];
    while magnitude != 0
      invariant WordsHash(start) == FoldOnto(words, WordsHash(magnitude))
      decreases magnitude
    {
      FoldOntoPush(words, magnitude % WORD, WordsHash(magnitude / WORD));
      words := words + [magnitude % WORD];
      magnitude := magnitude / WORD;
    }
    h := 0;
    var i := |words|;
    assert words[..i] == words;
    while i > 0
      invariant 0 <= i <= |words|
      invariant WordsHash(start) == FoldOnto(words[..i], h)
    {
      i := i - 1;
      FoldOntoPush(words[..i], words[i], h);
      assert words[..i + 1] == words[..i] + [words[i]];
      h := Narrow(31 * h + words[i]);
    }
    if value < 0 {
      var n: int := h;
      h := Narrow(-n);
    }
  }

  /** Folding words, least significant first, onto the hash of the words above them. */
  function FoldOnto(words: seq<Int32>, above: Int32): Int32 {
    if words == [] then above else Narrow(31 * FoldOnto(words[1..], above) + words[0])
  }

  lemma {:induction false} FoldOntoPush(words: seq<Int32>, word: Int32, above: Int32)
    ensures FoldOnto(words + [word], above) == FoldOnto(words, Narrow(31 * above + word))
  {
    hide Narrow;
    if words == [] {
      assert (words + [word])[1..] == [];
    } else {
      assert (words + [word])[1..] == words[1..] + [word];
      FoldOntoPush(words[1..], word, above);
    }
  }

  /** `_decimal_hash` of a finite decimal. */
  method DecimalHashLoop(negative: bool, digits0: seq<Digit>, exponent0: int) returns (h: Int32)
    requires digits0 != []
    ensures h == DecimalHash(negative, digits0, exponent0)
  {
    if Magnitude(digits0) == 0 {
      return 0;
    }
    var digits, exponent := digits0, exponent0;
    while |digits| > 1 && digits[|digits| - 1] == 0
      invariant |digits| >= 1 && Strip(digits) == Strip(digits0)
      invariant exponent + |digits| == exponent0 + |digits0|
    {
      digits := digits[..|digits| - 1];
      exponent := exponent + 1;
    }
    var unscaled: int := 0;
    var i := 0;
    while i < |digits|
      invariant 0 <= i <= |digits| && unscaled == Magnitude(digits[..i])
    {
      assert digits[..i + 1][..i] == digits[..i];
      unscaled := unscaled * 10 + digits[i];
      i := i + 1;
    }
    assert digits[..i] == digits;
    if negative {
      unscaled := -unscaled;
    }
    var big := BigIntegerHashLoop(unscaled);
    h := Narrow(31 * big - exponent);
  }
}
