/**
  Decimals as numbers: a coefficient and a power of ten. One number has many
  writings, such as 1.0 and 1.00.
*/
module Decimals {
  function Pow10(n: nat): (p: int)
    ensures p >= 1
  {
    if n == 0 then 1 else 10 * Pow10(n - 1)
  }

  /** Two decimals are equal as numbers. */
  predicate SameNumber(c: int, e: int, c1: int, e1: int) {
    if e >= e1 then c * Pow10(e - e1) == c1 else c == c1 * Pow10(e1 - e)
  }

  lemma {:induction false} PowAdd(m: nat, n: nat)
    ensures Pow10(m + n) == Pow10(m) * Pow10(n)
  {
    if m > 0 {
      PowAdd(m - 1, n);
    }
  }

  /** Taking one factor of ten out of a shifted number. */
  lemma Tens(s: int, m: nat)
    ensures Pow10(0) == 1 && s * Pow10(0) == s
    ensures m > 0 ==> s * Pow10(m) == 10 * (s * Pow10(m - 1))
  {
    if m > 0 {
      var p := Pow10(m - 1);
      assert Pow10(m) == 10 * p;
      hide Pow10;
      assert s * (10 * p) == 10 * (s * p);
    }
  }

  lemma {:induction false} CancelPow(s: int, m: nat, s1: int, n: nat)
    requires s % 10 != 0 && s1 % 10 != 0 && s * Pow10(m) == s1 * Pow10(n)
    ensures s == s1 && m == n
  {
    hide Pow10;
    Tens(s, m);
    Tens(s1, n);
    assert m > 0 <==> n > 0;
    if m > 0 {
      CancelPow(s, m - 1, s1, n - 1);
    }
  }

  lemma Shift(s: int, k: nat, d: nat)
    ensures s * Pow10(k) * Pow10(d) == s * Pow10(k + d)
  {
    PowAdd(k, d);
    var (p, q) := (Pow10(k), Pow10(d));
    hide Pow10;
    assert s * p * q == s * (p * q);
  }

  /** Two writings of one nonzero number differ only in trailing zeros. */
  lemma Canonical(s: int, k: nat, e: int, s1: int, k1: nat, e1: int)
    requires s % 10 != 0 && s1 % 10 != 0 && SameNumber(s * Pow10(k), e, s1 * Pow10(k1), e1)
    ensures s == s1 && e + k == e1 + k1
  {
    hide Pow10;
    if e >= e1 {
      Shift(s, k, e - e1);
      CancelPow(s, k + (e - e1), s1, k1);
    } else {
      Shift(s1, k1, e1 - e);
      CancelPow(s, k, s1, k1 + (e1 - e));
    }
  }

  lemma SameNumberEuclid(a: int, ea: int, b: int, eb: int, c: int, ec: int)
    requires SameNumber(a, ea, c, ec) && SameNumber(b, eb, c, ec)
    ensures SameNumber(a, ea, b, eb)
  {
    var low := Least(ea, eb, ec);
    Rescale(a, ea, c, ec, low);
    Rescale(b, eb, c, ec, low);
    Rescaled(a, ea, b, eb, low);
  }

  function Least(a: int, b: int, c: int): (m: int)
    ensures m <= a && m <= b && m <= c
  {
    if a <= b && a <= c then a else if b <= c then b else c
  }

  lemma Rescale(a: int, ea: int, c: int, ec: int, low: int)
    requires SameNumber(a, ea, c, ec) && low <= ea && low <= ec
    ensures a * Pow10(ea - low) == c * Pow10(ec - low)
  {
    hide Pow10;
    if ea >= ec {
      Shift(a, ea - ec, ec - low);
    } else {
      Shift(c, ec - ea, ea - low);
    }
  }

  lemma CancelFactor(x: int, y: int, p: int)
    requires p >= 1 && x * p == y * p
    ensures x == y
  {
  }

  lemma Rescaled(a: int, ea: int, b: int, eb: int, low: int)
    requires low <= ea && low <= eb && a * Pow10(ea - low) == b * Pow10(eb - low)
    ensures SameNumber(a, ea, b, eb)
  {
    hide Pow10;
    if ea >= eb {
      Shift(a, ea - eb, eb - low);
      CancelFactor(a * Pow10(ea - eb), b, Pow10(eb - low));
    } else {
      Shift(b, eb - ea, ea - low);
      CancelFactor(a, b * Pow10(eb - ea), Pow10(ea - low));
    }
  }
}
