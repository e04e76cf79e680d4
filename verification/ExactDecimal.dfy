/**
  Exact decimal arithmetic (src/basilisp/lang/numbers.py:34-117), on finite
  decimals given by coefficient and exponent.
*/
module ExactDecimal {
  import opened Prelude
  import opened Decimals

  datatype Dec = Dec(coef: int, exp: int)

  datatype Error = Inexact | DivisionByZero

  predicate Same(x: Dec, y: Dec) { SameNumber(x.coef, x.exp, y.coef, y.exp) }

  /** `_exact_decimal_add`. */
  function Add(x: Dec, y: Dec, subtract: bool): Dec {
    var yc := if subtract then -y.coef else y.coef;
    var e := if x.exp <= y.exp then x.exp else y.exp;
    Dec(x.coef * Pow10(x.exp - e) + yc * Pow10(y.exp - e), e)
  }

  /** `_exact_decimal_multiply`. */
  function Multiply(x: Dec, y: Dec): Dec { Dec(x.coef * y.coef, x.exp + y.exp) }

  function Pow(b: nat, n: nat): (p: nat)
    requires b >= 1
    ensures p >= 1
  {
    if n == 0 then 1 else
      var r := Pow(b, n - 1);
      assert b * r >= 1;
      b * r
  }

  function Abs(n: int): nat { if n < 0 then -n else n }

  /** `math.gcd`. */
  function Gcd(a: nat, b: nat): (g: nat)
    ensures b > 0 || a > 0 ==> g >= 1
    decreases b
  {
    if b == 0 then a else Gcd(b, a % b)
  }

  /** `n` decimal places are enough to write `x / y`, as `c` of that unit. */
  predicate Writes(x: int, y: int, n: nat, c: int) { c * y == x * Pow10(n) }

  ghost predicate Terminates(x: int, y: int, n: nat) { exists c :: Writes(x, y, n, c) }

  // ------------------------------------------------------------------
  // Small facts about products

  lemma MultipleMod(d: nat, k: int)
    requires d >= 1
    ensures (d * k) % d == 0
  {
    var (q, r) := ((d * k) / d, (d * k) % d);
    assert r == d * (k - q);
    AtLeast(d, k - q);
  }

  lemma AtLeast(d: nat, t: int)
    requires d >= 1
    ensures t >= 1 ==> d * t >= d
    ensures t <= -1 ==> d * t + d <= 0
    ensures t == 0 ==> d * t == 0
  {
  }

  lemma Quotient(d: nat, n: int)
    requires d >= 1 && n % d == 0
    ensures n == d * (n / d)
  {
  }

  lemma Swap(a: int, b: int, c: int)
    ensures a * b * c == a * (b * c) == b * (a * c)
  {
  }

  lemma GcdDivides(a: nat, b: nat)
    requires a > 0 || b > 0
    ensures a % Gcd(a, b) == 0 && b % Gcd(a, b) == 0
    decreases b
  {
    if b == 0 {
      MultipleMod(a, 1);
      MultipleMod(a, 0);
    } else {
      var g := Gcd(b, a % b);
      GcdDivides(b, a % b);
      Quotient(g, b);
      Quotient(g, a % b);
      var (u, v, q) := (b / g, a % b / g, a / b);
      assert a == b * q + a % b;
      Swap(g, u, q);
      assert a == g * (u * q + v);
      MultipleMod(g, u * q + v);
    }
  }

  lemma GcdGreatest(a: nat, b: nat, d: nat)
    requires (a > 0 || b > 0) && d >= 1 && a % d == 0 && b % d == 0
    ensures d <= Gcd(a, b)
    decreases b
  {
    Quotient(d, a);
    Quotient(d, b);
    if b == 0 {
      assert a / d >= 1;
      assert d * (a / d) >= d;
    } else {
      var (u, v, q) := (a / d, b / d, a / b);
      assert a % b == a - b * q;
      Swap(d, v, q);
      assert a % b == d * (u - v * q);
      MultipleMod(d, u - v * q);
      GcdGreatest(b, a % b, d);
    }
  }

  lemma {:induction false} TwosAndFives(n: nat)
    ensures Pow10(n) == Pow(2, n) * Pow(5, n)
  {
    if n > 0 {
      TwosAndFives(n - 1);
      assert Pow10(n) == 10 * Pow10(n - 1);
      var (p, q) := (Pow(2, n - 1), Pow(5, n - 1));
      assert Pow(2, n) == 2 * p && Pow(5, n) == 5 * q;
      hide Pow, Pow10;
      Swap(2 * p, 5, q);
      Swap(2, p, 5);
      Swap(10, p, q);
    }
  }

  lemma {:induction false} PowSum(b: nat, m: nat, n: nat)
    requires b >= 1
    ensures Pow(b, m + n) == Pow(b, m) * Pow(b, n)
  {
    if m > 0 {
      PowSum(b, m - 1, n);
      Swap(b, Pow(b, m - 1), Pow(b, n));
    }
  }

  // ------------------------------------------------------------------
  // When a quotient can be written

  /** A factor of a power of a base needs at least as high a power on the other side. */
  lemma {:induction false} Valuation(b: nat, u: int, a: nat, m: int, p: nat)
    requires b >= 2 && m % b != 0 && u * Pow(b, a) == m * Pow(b, p)
    ensures a <= p
  {
    if a > 0 {
      var q := Pow(b, a - 1);
      Swap(u, b, q);
      assert u * Pow(b, a) == b * (u * q);
      MultipleMod(b, u * q);
      assert m * Pow(b, 0) == m;
      if p == 0 {
        assert false;
      }
      var r := Pow(b, p - 1);
      Swap(m, b, r);
      assert b * (u * q) == b * (m * r);
      CancelFactor(u * q, m * r, b);
      hide Pow;
      Valuation(b, u, a - 1, m, p - 1);
    }
  }

  lemma FiveTimes(x: int)
    requires x % 2 != 0
    ensures (5 * x) % 2 != 0
  {
  }

  lemma TwoTimes(x: int)
    requires x % 5 != 0
    ensures (2 * x) % 5 != 0
  {
  }

  lemma {:induction false} StaysOdd(n: int, p: nat)
    requires n % 2 != 0
    ensures (n * Pow(5, p)) % 2 != 0
  {
    if p > 0 {
      StaysOdd(n, p - 1);
      FiveTimes(n * Pow(5, p - 1));
      Swap(n, 5, Pow(5, p - 1));
    }
  }

  lemma {:induction false} StaysOffFive(n: int, p: nat)
    requires n % 5 != 0
    ensures (n * Pow(2, p)) % 5 != 0
  {
    if p > 0 {
      StaysOffFive(n, p - 1);
      TwoTimes(n * Pow(2, p - 1));
      Swap(n, 2, Pow(2, p - 1));
    }
  }

  /** A product with a number prime to ten is a multiple of ten only if the other factor is. */
  lemma TenDivides(c: int, r: nat)
    requires r % 2 != 0 && r % 5 != 0 && (c * r) % 10 == 0
    ensures c % 10 == 0
  {
    UnitsProduct(c / 10, c % 10, r / 10, r % 10);
    OneDigit(c % 10, r % 10);
  }

  lemma UnitsProduct(q: int, a: int, s: int, b: int)
    ensures ((10 * q + a) * (10 * s + b)) % 10 == (a * b) % 10
  {
    var y := 10 * s + b;
    assert (10 * q + a) * y == 10 * (q * y) + a * y by { Swap(10, q, y); }
    assert a * y == 10 * (a * s) + a * b by { Swap(a, 10, s); }
    AddTens(q * y + a * s, a * b);
  }

  lemma AddTens(t: int, u: int)
    ensures (10 * t + u) % 10 == u % 10
  {
  }

  lemma OneDigit(a: int, b: int)
    requires 0 <= a < 10 && (b == 1 || b == 3 || b == 7 || b == 9) && (a * b) % 10 == 0
    ensures a == 0
  {
  }

  /** A divisor prime to ten of a shifted number divides the number. */
  lemma {:induction false} PrimeToTen(r: nat, n: int, p: nat, c: int) returns (k: int)
    requires r % 2 != 0 && r % 5 != 0 && c * r == n * Pow10(p)
    ensures n == k * r
  {
    if p == 0 {
      k := c;
    } else {
      var q := Pow10(p - 1);
      assert c * r == 10 * (n * q) by { Swap(n, 10, q); }
      MultipleMod(10, n * q);
      TenDivides(c, r);
      var c1 := c / 10;
      Swap(10, c1, r);
      assert c == 10 * c1;
      CancelFactor(c1 * r, n * q, 10);
      hide Pow10;
      k := PrimeToTen(r, n, p - 1, c1);
    }
  }

  /** `x == g * n` and `|y| == g * d` in lowest terms. */
  ghost predicate Lowest(x: int, y: int, g: nat, n: int, d: nat) {
    && y != 0 && g >= 1 && d >= 1 && x == g * n && Abs(y) == g * d
    && (forall e: nat :: e >= 1 && Abs(x) % e == 0 && Abs(y) % e == 0 ==> e <= g)
  }

  /** Nothing but one divides both sides of a fraction in lowest terms. */
  lemma NoCommonFactor(x: int, y: int, g: nat, n: int, d: nat, r: nat, k: int, l: nat)
    requires Lowest(x, y, g, n, d) && r >= 1 && n == k * r && d == l * r
    ensures r == 1
  {
    var e := g * r;
    Doubles(g, r);
    Swap(g, k, r);
    Swap(g, l, r);
    Swap(r, g, k);
    Swap(r, g, l);
    assert x == e * k && Abs(y) == e * l;
    AbsProduct(e, k);
    MultipleMod(e, Abs(k));
    MultipleMod(e, l);
  }

  lemma Doubles(g: nat, r: nat)
    ensures r >= 2 ==> g * r >= 2 * g
  {
  }

  lemma AbsProduct(e: nat, k: int)
    ensures Abs(e * k) == e * Abs(k)
  {
    if k < 0 {
      assert e * (-k) == -(e * k);
      AtMostZero(e, k);
    } else {
      assert e * k >= 0;
    }
  }

  lemma AtMostZero(e: nat, k: int)
    requires k <= 0
    ensures e * k <= 0
  {
  }

  /** Writing the quotient in lowest terms. */
  lemma WritesLowest(x: int, y: int, g: nat, n: int, d: nat, p: nat, c: int) returns (c1: int)
    requires Lowest(x, y, g, n, d) && Writes(x, y, p, c)
    ensures c1 * d == n * Pow10(p)
  {
    c1 := if y < 0 then -c else c;
    assert c1 * Abs(y) == c * y;
    Swap(c1, g, d);
    Swap(g, n, Pow10(p));
    assert g * (c1 * d) == g * (n * Pow10(p));
    CancelFactor(c1 * d, n * Pow10(p), g);
  }

  /** A divisor with a factor prime to ten never terminates. */
  lemma NeverTerminates(x: int, y: int, g: nat, n: int, d: nat, r: nat, l: nat, p: nat)
    requires Lowest(x, y, g, n, d) && d == l * r && r % 2 != 0 && r % 5 != 0 && r != 1
    ensures !Terminates(x, y, p)
  {
    forall c ensures !Writes(x, y, p, c) {
      if Writes(x, y, p, c) {
        var c1 := WritesLowest(x, y, g, n, d, p, c);
        Swap(c1, l, r);
        var k := PrimeToTen(r, n, p, c1 * l);
        NoCommonFactor(x, y, g, n, d, r, k, l);
      }
    }
  }

  /** Fewer places than the twos, or the fives, of the divisor are not enough. */
  lemma NeedsPlaces(x: int, y: int, g: nat, n: int, d: nat, twos: nat, fives: nat, p: nat)
    requires Lowest(x, y, g, n, d) && d == Pow(2, twos) * Pow(5, fives) && (p < twos || p < fives)
    ensures !Terminates(x, y, p)
  {
    TwosAndFives(p);
    var (a, b, s, t) := (Pow(2, twos), Pow(5, fives), Pow(2, p), Pow(5, p));
    forall c ensures !Writes(x, y, p, c) {
      if Writes(x, y, p, c) {
        var c1 := WritesLowest(x, y, g, n, d, p, c);
        assert c1 * (a * b) == n * (s * t);
        if p < twos {
          OddNumerator(x, y, g, n, d, 2, twos, b);
          StaysOdd(n, p);
          assert (c1 * b) * a == (n * t) * s by { Regroup(c1, a, b); Regroup(n, s, t); }
          Valuation(2, c1 * b, twos, n * t, p);
        } else {
          assert d == b * a;
          OddNumerator(x, y, g, n, d, 5, fives, a);
          StaysOffFive(n, p);
          assert (c1 * a) * b == (n * s) * t by { Swap(c1, a, b); Swap(n, s, t); }
          Valuation(5, c1 * a, fives, n * s, p);
        }
      }
    }
  }

  lemma Regroup(x: int, a: int, b: int)
    ensures x * (a * b) == (x * b) * a
  {
  }

  /** A base that divides the divisor does not divide the numerator. */
  lemma OddNumerator(x: int, y: int, g: nat, n: int, d: nat, b: nat, k: nat, o: nat)
    requires Lowest(x, y, g, n, d) && b >= 2 && k > 0 && d == Pow(b, k) * o
    ensures n % b != 0
  {
    if n % b == 0 {
      Quotient(b, n);
      var l := Pow(b, k - 1);
      assert Pow(b, k) == b * l;
      assert d == (l * o) * b by { Swap(b, l, o); }
      NoCommonFactor(x, y, g, n, d, b, n / b, l * o);
    }
  }

  // ------------------------------------------------------------------
  // Division

  /** The quotient, exactly, with the fewest decimal places below those of the operands. */
  ghost predicate IsQuotient(x: Dec, y: Dec, q: Dec) {
    exists p: nat ::
      && q.exp == x.exp - y.exp - p && Writes(x.coef, y.coef, p, q.coef)
      && forall m: nat :: m < p ==> !Terminates(x.coef, y.coef, m)
  }

  /** What `_exact_decimal_divide` may answer. */
  ghost predicate DividesTo(x: Dec, y: Dec, r: Result<Dec, Error>) {
    match r
    case Ok(q) => y.coef != 0 && IsQuotient(x, y, q)
    case Err(Inexact) => y.coef != 0 && forall p: nat :: !Terminates(x.coef, y.coef, p)
    case Err(DivisionByZero) => y.coef == 0
  }

  lemma LowestTerms(x: int, y: int)
    requires y != 0
    ensures var g := Gcd(Abs(x), Abs(y));
      g >= 1 && Lowest(x, y, g, x / g, Abs(y) / g)
  {
    var g := Gcd(Abs(x), Abs(y));
    GcdDivides(Abs(x), Abs(y));
    forall e: nat | e >= 1 && Abs(x) % e == 0 && Abs(y) % e == 0 ensures e <= g {
      GcdGreatest(Abs(x), Abs(y), e);
    }
    hide Gcd;
    Quotient(g, Abs(y));
    AtLeast(g, Abs(y) / g);
    SignedQuotient(g, x);
  }

  lemma SignedQuotient(g: nat, x: int)
    requires g >= 1 && Abs(x) % g == 0
    ensures x == g * (x / g)
  {
    var k := Abs(x) / g;
    Quotient(g, Abs(x));
    if x < 0 {
      assert x == g * (-k) by { Negate(g, k); }
      MultipleMod(g, -k);
      Quotient(g, x);
    }
  }

  lemma Negate(a: int, b: int)
    ensures a * (-b) == -(a * b) && (-a) * b == -(a * b)
  {
  }

  /** The remaining divisor after a factor is taken out. */
  lemma TakeFactor(b: nat, count: nat, divisor: nat)
    requires b >= 2 && divisor >= 1 && divisor % b == 0
    ensures Pow(b, count + 1) * (divisor / b) == Pow(b, count) * divisor
    ensures 1 <= divisor / b < divisor
  {
    Quotient(b, divisor);
    Swap(b, Pow(b, count), divisor / b);
    AtLeast(b, divisor / b);
    Doubles(divisor / b, b);
  }

  /** The quotient's coefficient from the numerator and the powers of two and five it lacks. */
  lemma CoefficientWrites(x: int, y: int, g: nat, n: int, d: nat, twos: nat, fives: nat, places: nat, c: int)
    requires Lowest(x, y, g, n, d) && d == Pow(2, twos) * Pow(5, fives) && twos <= places && fives <= places
    requires c == n * Pow(2, places - twos) * Pow(5, places - fives)
    ensures Writes(x, y, places, if y < 0 then -c else c)
  {
    hide Pow, Pow10;
    PowersMeet(n, twos, fives, places);
    ScaleUp(x, Abs(y), g, n, d, Pow10(places), c);
    Negate(c, Abs(y));
  }

  lemma PowersMeet(n: int, twos: nat, fives: nat, places: nat)
    requires twos <= places && fives <= places
    ensures n * Pow(2, places - twos) * Pow(5, places - fives) * (Pow(2, twos) * Pow(5, fives)) == n * Pow10(places)
  {
    PowSum(2, places - twos, twos);
    PowSum(5, places - fives, fives);
    TwosAndFives(places);
    Interleave(n, Pow(2, places - twos), Pow(5, places - fives), Pow(2, twos), Pow(5, fives));
  }

  lemma ScaleUp(x: int, y: int, g: nat, n: int, d: nat, ten: int, c: int)
    requires x == g * n && y == g * d && c * d == n * ten
    ensures c * y == x * ten
  {
    Swap(c, g, d);
    Swap(g, n, ten);
  }

  lemma Interleave(n: int, s: int, t: int, a: int, b: int)
    ensures n * s * t * (a * b) == n * ((s * a) * (t * b))
  {
    assert s * t * (a * b) == (s * a) * (t * b) by {
      Swap(s, t, a * b);
      Swap(t, a, b);
      Swap(s, a, t * b);
    }
    Swap(n, s, t);
    Swap(n, s * t, a * b);
  }

  /** `_exact_decimal_divide`. Both loops end, and the answer is the right one. */
  method Divide(x: Dec, y: Dec) returns (r: Result<Dec, Error>)
    ensures DividesTo(x, y, r)
  {
    if y.coef == 0 {
      return Err(DivisionByZero);
    }
    var commonFactor := Gcd(Abs(x.coef), Abs(y.coef));
    LowestTerms(x.coef, y.coef);
    var numerator := x.coef / commonFactor;
    var divisor := Abs(y.coef) / commonFactor;
    ghost var d := divisor;
    assert Pow(2, 0) * divisor == d;
    hide Lowest, Terminates, Pow, Gcd;
    var twos, fives := 0, 0;
    while divisor % 2 == 0
      invariant divisor >= 1 && Pow(2, twos) * divisor == d
      decreases divisor
    {
      TakeFactor(2, twos, divisor);
      divisor := divisor / 2;
      twos := twos + 1;
    }
    ghost var odd := divisor;
    while divisor % 5 == 0
      invariant divisor >= 1 && divisor % 2 != 0 && Pow(5, fives) * divisor == odd
      decreases divisor
    {
      TakeFactor(5, fives, divisor);
      StillOdd(divisor);
      divisor := divisor / 5;
      fives := fives + 1;
    }
    Swap(Pow(2, twos), Pow(5, fives), divisor);
    if divisor != 1 {
      forall p: nat ensures !Terminates(x.coef, y.coef, p) {
        NeverTerminates(x.coef, y.coef, commonFactor, numerator, d, divisor, Pow(2, twos) * Pow(5, fives), p);
      }
      return Err(Inexact);
    }
    var places := if twos >= fives then twos else fives;
    var coefficient := numerator * Pow(2, places - twos) * Pow(5, places - fives);
    CoefficientWrites(x.coef, y.coef, commonFactor, numerator, d, twos, fives, places, coefficient);
    if y.coef < 0 {
      coefficient := -coefficient;
    }
    forall m: nat | m < places ensures !Terminates(x.coef, y.coef, m) {
      NeedsPlaces(x.coef, y.coef, commonFactor, numerator, d, twos, fives, m);
    }
    r := Ok(Dec(coefficient, x.exp - y.exp - places));
    assert r.value.exp == x.exp - y.exp - places && Writes(x.coef, y.coef, places, r.value.coef);
  }

  lemma StillOdd(n: nat)
    requires n % 5 == 0 && n % 2 != 0
    ensures (n / 5) % 2 != 0
  {
    var k := n / 5;
    if k % 2 == 0 {
      assert n == 2 * (5 * (k / 2));
      MultipleMod(2, 5 * (k / 2));
    }
  }

  // ------------------------------------------------------------------
  // What the operations do to one another

  /** Multiplying a quotient by the divisor gives the dividend back, as a number. */
  lemma QuotientTimesDivisor(x: Dec, y: Dec, q: Dec)
    requires IsQuotient(x, y, q)
    ensures Same(Multiply(q, y), x)
  {
    var p: nat :| q.exp == x.exp - y.exp - p && Writes(x.coef, y.coef, p, q.coef);
    if p == 0 {
      assert Pow10(0) == 1;
    }
  }

  lemma CancelNonzero(a: int, b: int, y: int)
    requires y != 0 && a * y == b * y
    ensures a == b
  {
    if y < 0 {
      assert a * (-y) == b * (-y);
      CancelFactor(a, b, -y);
    } else {
      CancelFactor(a, b, y);
    }
  }

  /** Dividing a product by one factor gives the other back, digit for digit. */
  lemma ProductOverFactor(x: Dec, y: Dec, r: Result<Dec, Error>)
    requires y.coef != 0 && DividesTo(Multiply(x, y), y, r)
    ensures r == Ok(x)
  {
    var product := Multiply(x, y);
    assert Pow10(0) == 1;
    assert Writes(product.coef, y.coef, 0, x.coef);
    assert Terminates(product.coef, y.coef, 0);
    assert r.Ok?;
    var p: nat :| r.value.exp == product.exp - y.exp - p && Writes(product.coef, y.coef, p, r.value.coef)
      && forall m: nat :: m < p ==> !Terminates(product.coef, y.coef, m);
    assert p == 0;
    assert r.value.coef * y.coef == x.coef * y.coef;
    CancelNonzero(r.value.coef, x.coef, y.coef);
  }

  /** Two quotients of the same decimals are the same decimal. */
  lemma QuotientUnique(x: Dec, y: Dec, q: Dec, q1: Dec)
    requires y.coef != 0 && IsQuotient(x, y, q) && IsQuotient(x, y, q1)
    ensures q == q1
  {
    var p: nat :| q.exp == x.exp - y.exp - p && Writes(x.coef, y.coef, p, q.coef)
      && forall m: nat :: m < p ==> !Terminates(x.coef, y.coef, m);
    var p1: nat :| q1.exp == x.exp - y.exp - p1 && Writes(x.coef, y.coef, p1, q1.coef)
      && forall m: nat :: m < p1 ==> !Terminates(x.coef, y.coef, m);
    assert Terminates(x.coef, y.coef, p) && Terminates(x.coef, y.coef, p1);
    CancelNonzero(q.coef, q1.coef, y.coef);
  }

  /** Subtracting what was added gives the first decimal back, as a number. */
  lemma AddThenSubtract(x: Dec, y: Dec)
    ensures Same(Add(Add(x, y, false), y, true), x)
  {
    var e := if x.exp <= y.exp then x.exp else y.exp;
    var (p, q) := (Pow10(x.exp - e), Pow10(y.exp - e));
    assert Pow10(0) == 1;
    assert (-y.coef) * q == -(y.coef * q);
    assert Add(Add(x, y, false), y, true) == Dec(x.coef * p, e);
  }

  // ------------------------------------------------------------------
  // The numbers the operations give: a decimal is worth so many units of ten to the power `low`

  lemma Distribute(a: int, b: int, p: int)
    ensures (a + b) * p == a * p + b * p && (a - b) * p == a * p - b * p
  {
  }

  /** A sum or a difference is worth the sum or the difference, written down to the smaller exponent. */
  lemma AddValue(x: Dec, y: Dec, subtract: bool, low: int)
    requires low <= x.exp && low <= y.exp
    ensures var q := Add(x, y, subtract);
      && low <= q.exp <= x.exp && q.exp <= y.exp && (q.exp == x.exp || q.exp == y.exp)
      && var (a, b) := (x.coef * Pow10(x.exp - low), y.coef * Pow10(y.exp - low));
      q.coef * Pow10(q.exp - low) == if subtract then a - b else a + b
  {
    var e := if x.exp <= y.exp then x.exp else y.exp;
    var (a, b, t) := (x.coef * Pow10(x.exp - e), y.coef * Pow10(y.exp - e), Pow10(e - low));
    SumCoefficient(x, y, subtract, e);
    Shift(x.coef, x.exp - e, e - low);
    Shift(y.coef, y.exp - e, e - low);
    assert x.exp - e + (e - low) == x.exp - low && y.exp - e + (e - low) == y.exp - low;
    hide Pow10, Add;
    Distribute(a, b, t);
  }

  lemma SumCoefficient(x: Dec, y: Dec, subtract: bool, e: int)
    requires e == if x.exp <= y.exp then x.exp else y.exp
    ensures var (a, b) := (x.coef * Pow10(x.exp - e), y.coef * Pow10(y.exp - e));
      Add(x, y, subtract) == Dec(if subtract then a - b else a + b, e)
  {
    hide Pow10;
    Negate(y.coef, Pow10(y.exp - e));
  }

  /** A product is worth the product. */
  lemma MultiplyValue(x: Dec, y: Dec, low: int, low1: int)
    requires low <= x.exp && low1 <= y.exp
    ensures var q := Multiply(x, y);
      && low + low1 <= q.exp
      && q.coef * Pow10(q.exp - (low + low1)) == x.coef * Pow10(x.exp - low) * (y.coef * Pow10(y.exp - low1))
  {
    PowAdd(x.exp - low, y.exp - low1);
    assert x.exp - low + (y.exp - low1) == x.exp + y.exp - (low + low1);
    hide Pow10;
    Crossed(x.coef, y.coef, Pow10(x.exp - low), Pow10(y.exp - low1));
  }

  lemma Crossed(a: int, b: int, p: int, q: int)
    ensures a * b * (p * q) == a * p * (b * q)
  {
    Swap(a, b, p * q);
    Swap(b, p, q);
    Swap(a, p, b * q);
  }

  /** The same numbers give the same sum, difference and product, however they are written. */
  lemma OperationsOnNumbers(x: Dec, y: Dec, x1: Dec, y1: Dec, subtract: bool)
    requires Same(x, x1) && Same(y, y1)
    ensures Same(Add(x, y, subtract), Add(x1, y1, subtract)) && Same(Multiply(x, y), Multiply(x1, y1))
  {
    var (low, low1) := (Least(x.exp, x1.exp, 0), Least(y.exp, y1.exp, 0));
    var both := Least(low, low1, 0);
    RescaleBelow(x, x1, both);
    RescaleBelow(y, y1, both);
    AddValue(x, y, subtract, both);
    AddValue(x1, y1, subtract, both);
    MultiplyValue(x, y, both, both);
    MultiplyValue(x1, y1, both, both);
    hide Pow10, Add, Multiply;
    var (s, s1, m, m1) := (Add(x, y, subtract), Add(x1, y1, subtract), Multiply(x, y), Multiply(x1, y1));
    Rescaled(s.coef, s.exp, s1.coef, s1.exp, both);
    Rescaled(m.coef, m.exp, m1.coef, m1.exp, both + both);
  }

  lemma RescaleBelow(x: Dec, x1: Dec, low: int)
    requires Same(x, x1) && low <= x.exp && low <= x1.exp
    ensures x.coef * Pow10(x.exp - low) == x1.coef * Pow10(x1.exp - low)
  {
    Rescale(x.coef, x.exp, x1.coef, x1.exp, low);
  }

  /** A product of a sum is the sum of the products, digit for digit. */
  lemma MultiplyDistributes(x: Dec, y: Dec, z: Dec, subtract: bool)
    ensures Multiply(Add(x, y, subtract), z) == Add(Multiply(x, z), Multiply(y, z), subtract)
  {
    var e := if x.exp <= y.exp then x.exp else y.exp;
    var (p, q) := (Pow10(x.exp - e), Pow10(y.exp - e));
    var yc := if subtract then -y.coef else y.coef;
    hide Pow10;
    Negate(y.coef, z.coef);
    Distribute(x.coef * p, yc * q, z.coef);
    Crossed(x.coef, 1, p, z.coef);
    Crossed(yc, 1, q, z.coef);
    Crossed(x.coef, z.coef, p, 1);
    Crossed(yc, z.coef, q, 1);
  }
}
