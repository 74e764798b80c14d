/** Java `int` arithmetic: 32-bit two's complement, wrapping `+ - *`, `/` and `%` truncating toward zero. */
module JavaInt {

  const MIN: int := -0x8000_0000
  const MAX: int := 0x7fff_ffff
  const MODULUS: int := 0x1_0000_0000

  /** The values a Java `int` can hold. */
  type int32 = x: int | -0x8000_0000 <= x < 0x8000_0000

  /** The Java int whose low 32 bits are those of `x`. */
  function Wrap(x: int): (r: int32)
    ensures (r - x) % MODULUS == 0
    ensures MIN <= x <= MAX ==> r == x
  {
    WrapFacts(x);
    (x + 0x8000_0000) % MODULUS - 0x8000_0000
  }

  lemma WrapFacts(x: int)
    ensures ((x + 0x8000_0000) % MODULUS - 0x8000_0000 - x) % MODULUS == 0
    ensures MIN <= x <= MAX ==> (x + 0x8000_0000) % MODULUS - 0x8000_0000 == x
  {
    var k := x + 0x8000_0000;
    assert k == (k / MODULUS) * MODULUS + k % MODULUS;
    MultipleOfModulus(-(k / MODULUS));
    assert k % MODULUS - 0x8000_0000 - x == -(k / MODULUS) * MODULUS;
    if MIN <= x <= MAX {
      assert 0 <= k < MODULUS;
    }
  }

  lemma MultipleOfModulus(q: int)
    ensures (q * MODULUS) % MODULUS == 0
  {
  }

  function Add(a: int32, b: int32): (r: int32)
    ensures (r - (a + b)) % MODULUS == 0
    ensures MIN <= a + b <= MAX ==> r == a + b
  {
    Wrap(a + b)
  }

  function Sub(a: int32, b: int32): (r: int32)
    ensures (r - (a - b)) % MODULUS == 0
    ensures MIN <= a - b <= MAX ==> r == a - b
  {
    Wrap(a - b)
  }

  function Mul(a: int32, b: int32): (r: int32)
    ensures (r - a * b) % MODULUS == 0
    ensures MIN <= a * b <= MAX ==> r == a * b
  {
    Wrap(a * b)
  }

  /** Java's unary minus: `-MIN` wraps back to `MIN`. */
  function Neg(a: int32): (r: int32)
    ensures a != MIN ==> r == -a
    ensures a == MIN ==> r == MIN
  {
    Wrap(-(a as int))
  }

  function Abs(x: int): nat {
    if x < 0 then -x else x
  }

  /** The quotient rounded toward zero, as a mathematical integer. */
  function TruncQuot(a: int, b: int): int
    requires b != 0
  {
    var q := Abs(a) / Abs(b);
    if (a < 0) != (b < 0) then -q else q
  }

  /** The remainder that goes with `TruncQuot`. */
  function TruncRem(a: int, b: int): int
    requires b != 0
  {
    a - b * TruncQuot(a, b)
  }

  /**
   * What makes division "truncating": the remainder is smaller than the divisor in
   * magnitude and has the sign of the dividend (unlike Dafny's Euclidean `%`).
   */
  ghost predicate IsTruncDivision(a: int, b: int, q: int, r: int) {
    b != 0 && a == q * b + r && Abs(r) < Abs(b) && (r == 0 || (r < 0) == (a < 0))
  }

  lemma {:induction false} TruncDivisionHolds(a: int, b: int)
    requires b != 0
    ensures IsTruncDivision(a, b, TruncQuot(a, b), TruncRem(a, b))
  {
    var m := Abs(a) % Abs(b);
    TruncRemMagnitude(a, b);
    assert TruncRem(a, b) == (if a < 0 then -m else m);
    assert b * TruncQuot(a, b) == TruncQuot(a, b) * b;
  }

  /** The truncating remainder is the remainder of the magnitudes, with the dividend's sign. */
  lemma TruncRemMagnitude(a: int, b: int)
    requires b != 0
    ensures TruncRem(a, b) == if a < 0 then -(Abs(a) % Abs(b)) else Abs(a) % Abs(b)
  {
    var q := Abs(a) / Abs(b);
    var m := Abs(a) % Abs(b);
    assert Abs(a) == q * Abs(b) + m;
    var t := TruncQuot(a, b);
    if a >= 0 && b > 0 {
      assert t == q && b * t == q * Abs(b);
    } else if a >= 0 {
      assert t == -q && b * t == q * Abs(b) by {
        NegProduct(q, Abs(b));
      }
    } else if b > 0 {
      assert t == -q && b * t == -(q * Abs(b)) by {
        NegProduct(q, Abs(b));
      }
    } else {
      assert t == q && b * t == -(q * Abs(b)) by {
        NegProduct(q, Abs(b));
      }
    }
  }

  lemma NegProduct(x: int, y: int)
    ensures (-y) * (-x) == x * y && (-y) * x == -(x * y) && y * (-x) == -(x * y)
  {
  }

  /** Truncating division is the only one with those properties. */
  lemma {:induction false} TruncDivisionUnique(a: int, b: int, q: int, r: int)
    requires IsTruncDivision(a, b, q, r)
    ensures q == TruncQuot(a, b) && r == TruncRem(a, b)
  {
    TruncDivisionHolds(a, b);
    var q0, r0 := TruncQuot(a, b), TruncRem(a, b);
    SameSignRemainders(a, b, r, r0);
    assert q * b + r == q0 * b + r0;
    Distribute(q, q0, b);
    if q != q0 {
      AtLeastOneDivisor(q - q0, b);
      assert false;
    }
  }

  lemma Distribute(q: int, q0: int, b: int)
    ensures (q - q0) * b == q * b - q0 * b
  {
  }

  lemma SameSignRemainders(a: int, b: int, r: int, r0: int)
    requires b != 0
    requires Abs(r) < Abs(b) && (r == 0 || (r < 0) == (a < 0))
    requires Abs(r0) < Abs(b) && (r0 == 0 || (r0 < 0) == (a < 0))
    ensures Abs(r0 - r) < Abs(b)
  {
  }

  lemma AtLeastOneDivisor(d: int, b: int)
    requires d != 0
    ensures Abs(d * b) >= Abs(b)
  {
    var e, c := Abs(d), Abs(b);
    ProductNonneg(e - 1, c);
    assert e * c == (e - 1) * c + c;
    assert Abs(d * b) == e * c by {
      if d < 0 && b < 0 {
        assert d * b == (-d) * (-b);
      } else if d < 0 {
        assert d * b == -((-d) * b);
      } else if b < 0 {
        assert d * b == -(d * (-b));
      }
    }
  }

  lemma ProductNonneg(x: nat, y: nat)
    ensures x * y >= 0
  {
  }

  /** Java's `a / b`: truncating, and `MIN / -1` wraps to `MIN`. */
  function Div(a: int32, b: int32): (r: int32)
    requires b != 0
    ensures !(a == MIN && b == -1) ==> r == TruncQuot(a, b)
    ensures a == MIN && b == -1 ==> r == MIN
  {
    QuotInRange(a, b);
    Wrap(TruncQuot(a, b))
  }

  lemma QuotInRange(a: int32, b: int32)
    requires b != 0
    ensures !(a == MIN && b == -1) ==> MIN <= TruncQuot(a, b) <= MAX
  {
    var n: int, m: int := Abs(a), Abs(b);
    assert m > 0;
    var q: int := n / m;
    assert n <= 0x8000_0000;
    assert TruncQuot(a, b) == if (a < 0) != (b < 0) then -q else q;
    if m == 1 {
      QuotientAtMost(n, m);
      assert q == n;
    } else {
      QuotientHalves(n, m);
      assert q <= 0x4000_0000;
    }
  }

  lemma QuotientAtMost(n: nat, m: nat)
    requires m > 0
    ensures n / m <= n
    ensures m == 1 ==> n / m == n
  {
    var q, rr := n / m, n % m;
    assert n == q * m + rr;
    ProductNonneg(q, m - 1);
    assert q * m == q * (m - 1) + q;
  }

  lemma QuotientHalves(n: nat, m: nat)
    requires m >= 2
    ensures 2 * (n / m) <= n
  {
    var q, rr := n / m, n % m;
    assert n == q * m + rr;
    ProductNonneg(q, m - 2);
    assert q * m == q * (m - 2) + 2 * q;
  }

  /** Java's `a % b`: the truncating remainder (never overflows). */
  function Rem(a: int32, b: int32): (r: int32)
    requires b != 0
    ensures r == TruncRem(a, b)
  {
    TruncDivisionHolds(a, b);
    TruncRem(a, b)
  }

  /**
   * Narrowing a constant to `char` the way the analyser does it: keep `v & 0xff`
   * and, when bit 7 is set, OR in `0xFFFFFF00`.
   */
  function NarrowToChar(v: int32): (r: int32)
    ensures -128 <= r <= 127
    ensures (r - v) % 256 == 0
    ensures -128 <= v <= 127 ==> r == v
  {
    NarrowFacts(v);
    var low := v % 256;
    if low >= 128 then low - 256 else low
  }

  lemma NarrowFacts(v: int)
    ensures var low := v % 256; var r := if low >= 128 then low - 256 else low;
      (r - v) % 256 == 0 && (-128 <= v <= 127 ==> r == v)
  {
    var low := v % 256;
    assert v == (v / 256) * 256 + low;
    var q := if low >= 128 then -(v / 256) - 1 else -(v / 256);
    var r := if low >= 128 then low - 256 else low;
    assert r - v == q * 256;
    MultipleOf256(q);
    if -128 <= v <= 127 {
      if v >= 0 {
        assert v / 256 == 0;
      } else {
        assert v / 256 == -1;
      }
    }
  }

  lemma MultipleOf256(q: int)
    ensures (q * 256) % 256 == 0
  {
  }
}
